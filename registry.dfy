/**
 * The client registry the event handlers consult (`client_manager`,
 * `client_add`, `client_remove`, `client_find_by_window`). Its
 * implementation is not part of this model, so it is modelled abstractly:
 * a map from window handle to the managed `Client` record, plus the handle
 * of the focused client.
 */
module Registry {
  import opened Wrappers
  import opened Foreign
  import opened Clients

  class ClientManager {
    var clients: map<Window, Client>
    var focused: Option<Window>

    /** Every record is filed under its own window, and focus names a managed window. */
    ghost predicate Valid()
      reads this
    {
      (forall w | w in clients :: clients[w].window == w) &&
      (focused.Some? ==> focused.value in clients)
    }

    constructor ()
      ensures Valid()
      ensures clients == map[] && focused == None
    {
      clients := map[];
      focused := None;
    }

    /** client_find_by_window: the record managing `w`, or null for an unmanaged window. */
    function Find(w: Window): (c: Client?)
      reads this
      requires Valid()
      ensures c != null <==> w in clients
      ensures c != null ==> c.window == w && c == clients[w]
    {
      if w in clients then clients[w] else null
    }

    /**
     * client_add: a window already managed is left alone; otherwise a new
     * record is filed under it. The geometry the registry gives the new
     * record is not part of the model.
     */
    method Add(w: Window)
      modifies this
      requires Valid()
      ensures Valid()
      ensures w in old(clients) ==> clients == old(clients)
      ensures clients.Keys == old(clients).Keys + {w}
      ensures w !in old(clients) ==> fresh(clients[w])
      ensures forall v | v in old(clients) :: clients[v] == old(clients)[v]
      ensures focused == old(focused)
    {
      if w !in clients {
        var c := new Client.Init(w, NONE, 0, 0, 0, 0);
        clients := clients[w := c];
      }
    }

    /** client_remove: the window is no longer managed; focus on it is dropped. */
    method Remove(w: Window)
      modifies this
      requires Valid()
      ensures Valid()
      ensures clients == old(clients) - {w}
      ensures focused == if old(focused) == Some(w) then None else old(focused)
    {
      clients := clients - {w};
      if focused == Some(w) {
        focused := None;
      }
    }
  }
}
