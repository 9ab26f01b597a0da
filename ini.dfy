/**
 * The INI reader of the window manager (CanopyWM/src/ini.c). Each line
 * fgets delivers is trimmed in place in a NUL-terminated buffer: trailing
 * whitespace is overwritten with NULs, leading whitespace skipped, comment
 * lines and section headers recognised, and a `name = value` line handed to
 * the handler as two pointers into the same buffer. Because the `=` itself
 * is never overwritten, the `name` the handler sees is the whole line up to
 * the end of the value, and the value is a suffix of it.
 *
 * The scans are written, as in C, as walks of an index over a character
 * sequence; the same walks serve the specification (on the trimmed line)
 * and the buffer methods (on the array).
 */
module Ini {

  const MAX_SECTION: nat := 50

  /** isspace in the C locale: space, tab, newline, vertical tab, form feed, carriage return. */
  predicate IsSpace(c: char) {
    c == ' ' || '\t' <= c <= '\r'
  }

  predicate IsComment(c: char) {
    c == ';' || c == '#'
  }

  /** Where find_char_or_comment stops when looking for `c`. */
  predicate Stops(ch: char, c: char) {
    ch == c || IsComment(ch) || ch == '\0'
  }

  /** The first NUL at or after `i` (strlen from `i`), or the end. */
  function Nul(b: seq<char>, i: nat): (k: nat)
    requires i <= |b|
    ensures i <= k <= |b| && (k < |b| ==> b[k] == '\0')
    decreases |b| - i
  {
    if i == |b| || b[i] == '\0' then i else Nul(b, i + 1)
  }

  /** lskip from `i`: the first character that is not whitespace, or the end. */
  function SkipSpaces(b: seq<char>, i: nat): (k: nat)
    requires i <= |b|
    ensures i <= k <= |b| && (k < |b| ==> !IsSpace(b[k]))
    decreases |b| - i
  {
    if i == |b| || !IsSpace(b[i]) then i else SkipSpaces(b, i + 1)
  }

  /** find_char_or_comment from `i`: the first `c`, `;`, `#` or NUL, or the end. */
  function FindFrom(b: seq<char>, i: nat, c: char): (k: nat)
    requires i <= |b|
    ensures i <= k <= |b| && (k < |b| ==> Stops(b[k], c))
    decreases |b| - i
  {
    if i == |b| || Stops(b[i], c) then i else FindFrom(b, i + 1, c)
  }

  /** rstrip of the string [lo, hi): walking back from `hi` over whitespace, never below `lo`. */
  function TrimEnd(b: seq<char>, lo: nat, hi: nat): (k: nat)
    requires lo <= hi <= |b|
    ensures lo <= k <= hi && (k == lo || !IsSpace(b[k - 1]))
    decreases hi - lo
  {
    if hi == lo || !IsSpace(b[hi - 1]) then hi else TrimEnd(b, lo, hi - 1)
  }

  /** Nothing between `i` and the point FindFrom stops at makes it stop. */
  lemma {:induction false} FindFirst(b: seq<char>, i: nat, c: char)
    requires i <= |b|
    ensures forall j | i <= j < FindFrom(b, i, c) :: !Stops(b[j], c)
    decreases |b| - i
  {
    if i < |b| && !Stops(b[i], c) {
      FindFirst(b, i + 1, c);
    }
  }

  /** Everything rstrip walked back over is whitespace. */
  lemma {:induction false} TrimAll(b: seq<char>, lo: nat, hi: nat)
    requires lo <= hi <= |b|
    ensures forall j | TrimEnd(b, lo, hi) <= j < hi :: IsSpace(b[j])
    decreases hi - lo
  {
    if hi > lo && IsSpace(b[hi - 1]) {
      TrimAll(b, lo, hi - 1);
    }
  }

  /** A C string holds no NUL before its terminator. */
  lemma {:induction false} NulFirst(b: seq<char>, i: nat)
    requires i <= |b|
    ensures forall j | i <= j < Nul(b, i) :: b[j] != '\0'
    decreases |b| - i
  {
    if i < |b| && b[i] != '\0' {
      NulFirst(b, i + 1);
    }
  }

  /** strncpy into a 50-byte buffer whose last byte is then set to NUL: at most 49 characters. */
  function Truncate(s: string, n: nat): (r: string)
    ensures |r| <= n && |r| <= |s| && r == s[..|r|]
    ensures |s| <= n ==> r == s
  {
    if |s| <= n then s else s[..n]
  }

  /** What one line amounts to. */
  datatype Parsed = Skip | Section(name: string) | Pair(name: string, value: string)

  /** The string at the start of the line: up to its first NUL. */
  function Content(raw: string): (c: string)
    ensures '\0' !in c
  {
    NulFirst(raw, 0);
    raw[..Nul(raw, 0)]
  }

  /** The line after rstrip. */
  function RightStripped(raw: string): (r: string)
    ensures '\0' !in r
    ensures r == [] || !IsSpace(r[|r| - 1])
  {
    var c := Content(raw);
    var k := TrimEnd(c, 0, |c|);
    assert forall j | 0 <= j < k :: c[..k][j] == c[j];
    c[..k]
  }

  /** The line as the parser looks at it: up to its first NUL, trailing and leading whitespace dropped. */
  function Trimmed(raw: string): (t: string)
    ensures '\0' !in t
    ensures t == [] || (!IsSpace(t[0]) && !IsSpace(t[|t| - 1]))
  {
    var r := RightStripped(raw);
    var t := r[SkipSpaces(r, 0)..];
    assert t != [] ==> t[|t| - 1] == r[|r| - 1];
    t
  }

  /** ini_parse_stream's treatment of one line. */
  function ParseLine(raw: string): Parsed {
    Classify(Trimmed(raw))
  }

  /** A trimmed line: blank or a comment, a section header, or a candidate `name=value` line. */
  function Classify(t: string): Parsed {
    if t == [] || IsComment(t[0]) then Skip
    else if t[0] == '[' then SectionLine(t)
    else KeyLine(t)
  }

  /** A line starting with `[`: a section when a `]` comes before the first comment character. */
  function SectionLine(t: string): Parsed
    requires t != []
  {
    var f := FindFrom(t, 1, ']');
    if f < |t| && t[f] == ']' then Section(Truncate(t[1..f], MAX_SECTION - 1)) else Skip
  }

  /**
   * Any other line: skipped unless an `=` comes before the first comment
   * character. The value runs from after the `=` and the whitespace
   * following it up to a comment character, trailing whitespace dropped;
   * the name is the line from its start up to the end of the value.
   */
  function KeyLine(t: string): Parsed {
    var e := FindFrom(t, 0, '=');
    if e < |t| && t[e] == '=' then ValuePair(t, SkipSpaces(t, e + 1)) else Skip
  }

  /** The pair of a key line whose value starts at `v`. */
  function ValuePair(t: string, v: nat): Parsed
    requires v <= |t|
  {
    var vend := TrimEnd(t, v, FindFrom(t, v, '\0'));
    Pair(t[..vend], t[v..vend])
  }

  /** Blank lines and comment lines are skipped. */
  lemma {:induction false} CommentsSkipped(raw: string)
    requires var t := Trimmed(raw); t == [] || IsComment(t[0])
    ensures ParseLine(raw) == Skip
  {
  }

  /**
   * On a trimmed line, a section header yields at most 49 characters taken
   * from just after the `[`, and only when the `]` comes before any comment
   * character.
   */
  lemma {:induction false} SectionShape(t: string)
    requires Classify(t).Section?
    ensures var name := Classify(t).name;
      t != [] && t[0] == '[' && |name| < MAX_SECTION && 1 + |name| <= |t| && t[1..1 + |name|] == name &&
      forall q | 0 <= q < |name| :: name[q] != ']' && !IsComment(name[q])
  {
    var f := FindFrom(t, 1, ']');
    FindFirst(t, 1, ']');
    var name := Truncate(t[1..f], MAX_SECTION - 1);
    assert Classify(t).name == name;
    forall q | 0 <= q < |name|
      ensures name[q] != ']' && !IsComment(name[q])
    {
      assert name[q] == t[1 + q];
    }
  }

  /**
   * On a trimmed line, a key line hands over a value with no surrounding
   * whitespace and no comment character, and a name that starts at the
   * line's first character, holds the `=`, and ends with the value.
   */
  lemma {:induction false} PairShape(t: string)
    requires Classify(t).Pair?
    ensures var p := Classify(t);
      |p.name| <= |t| && p.name == t[..|p.name|] && '=' in p.name &&
      |p.value| <= |p.name| && p.name[|p.name| - |p.value|..] == p.value &&
      (p.value == [] || (!IsSpace(p.value[0]) && !IsSpace(p.value[|p.value| - 1]))) &&
      forall q | 0 <= q < |p.value| :: !IsComment(p.value[q])
  {
    var e := FindFrom(t, 0, '=');
    var v := SkipSpaces(t, e + 1);
    var cut := FindFrom(t, v, '\0');
    var vend := TrimEnd(t, v, cut);
    FindFirst(t, v, '\0');
    assert Classify(t) == ValuePair(t, v) == Pair(t[..vend], t[v..vend]);
    assert t[..vend][e] == '=';
    forall q | 0 <= q < vend - v
      ensures !IsComment(t[v..vend][q])
    {
      assert t[v..vend][q] == t[v + q];
    }
  }

  /** The handler's view of one call: the current section, the name and the value. */
  datatype Handled = Handled(section: string, name: string, value: string)

  /** The user's handler: what it returns for a section, a name and a value (the user pointer is not modelled). */
  type Handler = (string, string, string) -> int

  /** Whether the handler refuses a call, which stops the parse. */
  predicate Refused(handler: Handler, c: Handled) {
    handler(c.section, c.name, c.value) < 0
  }

  /**
   * ini_parse_stream over the lines fgets delivers, starting in section
   * `section`: the calls made, in order, and the result — 0 as soon as the
   * handler returns a negative number, 1 when every line was read.
   */
  function Run(lines: seq<string>, handler: Handler, section: string): (r: (int, seq<Handled>))
    ensures r.0 == 0 || r.0 == 1
  {
    if lines == [] then (1, [])
    else
      match ParseLine(lines[0])
      case Skip => Run(lines[1..], handler, section)
      case Section(s) => Run(lines[1..], handler, s)
      case Pair(n, v) =>
        if handler(section, n, v) < 0 then (0, [Handled(section, n, v)])
        else
          var rest := Run(lines[1..], handler, section);
          (rest.0, [Handled(section, n, v)] + rest.1)
  }

  /** Every line yields at most one call, so the calls never outnumber the lines. */
  lemma {:induction false} RunCallsBounded(lines: seq<string>, handler: Handler, section: string)
    ensures |Run(lines, handler, section).1| <= |lines|
  {
    if lines != [] {
      match ParseLine(lines[0])
      case Skip => RunCallsBounded(lines[1..], handler, section);
      case Section(s) => RunCallsBounded(lines[1..], handler, s);
      case Pair(n, v) => RunCallsBounded(lines[1..], handler, section);
    }
  }

  /**
   * A parse outcome in which the result is 0 exactly when the last call
   * was refused, and every call before the last was accepted.
   */
  predicate StopsAtRefusal(handler: Handler, r: (int, seq<Handled>)) {
    (r.0 == 0 <==> r.1 != [] && Refused(handler, r.1[|r.1| - 1])) &&
    forall i | 0 <= i < |r.1| - 1 :: !Refused(handler, r.1[i])
  }

  /** The parse stops at the first refusal: the handler is never called again after it refuses. */
  lemma {:induction false} RunStopsAtRefusal(lines: seq<string>, handler: Handler, section: string)
    ensures StopsAtRefusal(handler, Run(lines, handler, section))
  {
    if lines != [] {
      match ParseLine(lines[0])
      case Skip => RunStopsAtRefusal(lines[1..], handler, section);
      case Section(s) => RunStopsAtRefusal(lines[1..], handler, s);
      case Pair(n, v) =>
        var h := Handled(section, n, v);
        if !Refused(handler, h) {
          RunStopsAtRefusal(lines[1..], handler, section);
          AcceptedFirst(handler, h, Run(lines[1..], handler, section));
        }
    }
  }

  /** An accepted call in front of an outcome that stops at refusal keeps it so. */
  lemma {:induction false} AcceptedFirst(handler: Handler, h: Handled, rest: (int, seq<Handled>))
    requires !Refused(handler, h) && StopsAtRefusal(handler, rest)
    ensures StopsAtRefusal(handler, (rest.0, [h] + rest.1))
  {
    var calls := [h] + rest.1;
    forall i | 0 <= i < |calls| - 1
      ensures !Refused(handler, calls[i])
    {
      if i > 0 {
        assert calls[i] == rest.1[i - 1];
      }
    }
    if rest.1 != [] {
      assert calls[|calls| - 1] == rest.1[|rest.1| - 1];
    }
  }

  // ---------------------------------------------------------------------
  // The line buffer. fgets leaves its last byte a NUL; a string "placed" at
  // `o` occupies [o, o + |x|) and is followed by its terminating NUL.

  predicate Terminated(b: seq<char>) {
    |b| > 0 && b[|b| - 1] == '\0'
  }

  predicate Placed(b: seq<char>, o: nat, x: string) {
    o + |x| < |b| && b[o..o + |x|] == x && b[o + |x|] == '\0' && '\0' !in x
  }

  /** `b` with every byte in [lo, hi) overwritten by NUL. */
  function Nulled(b: seq<char>, lo: nat, hi: nat): (r: seq<char>)
    ensures |r| == |b|
  {
    seq(|b|, i requires 0 <= i < |b| => if lo <= i < hi then '\0' else b[i])
  }

  /** A suffix of a placed string is placed where it starts. */
  lemma {:induction false} PlacedSuffix(b: seq<char>, o: nat, x: string, k: nat)
    requires Placed(b, o, x) && k <= |x|
    ensures Placed(b, o + k, x[k..])
  {
    assert b[o + k..o + |x|] == b[o..o + |x|][k..];
    assert forall j | 0 <= j < |x| - k :: x[k..][j] == x[k + j];
  }

  /** Writing NULs from index `k` of a placed string on leaves its first `k` characters placed. */
  lemma {:induction false} PlacedCut(b: seq<char>, o: nat, x: string, k: nat, lo: nat, hi: nat)
    requires Placed(b, o, x) && k <= |x| && lo == o + k && lo < hi <= |b|
    ensures Placed(Nulled(b, lo, hi), o, x[..k])
  {
    var nb := Nulled(b, lo, hi);
    forall j | 0 <= j < k
      ensures nb[o + j] == x[j]
    {
      assert b[o + j] == b[o..o + |x|][j];
    }
    assert nb[o..o + k] == x[..k];
    assert forall j | 0 <= j < k :: x[..k][j] == x[j];
  }


  /** Writing NULs over an empty range changes nothing. */
  lemma {:induction false} NulledEmpty(b: seq<char>, k: nat)
    ensures Nulled(b, k, k) == b
  {
  }

  /** The terminator of a placed string is found where it was placed. */
  lemma {:induction false} ShiftNul(b: seq<char>, o: nat, x: string, i: nat)
    requires Placed(b, o, x) && i <= |x|
    ensures Nul(b, o + i) == o + |x|
    decreases |x| - i
  {
    if i < |x| {
      assert b[o + i] == b[o..o + |x|][i] == x[i];
      ShiftNul(b, o, x, i + 1);
    }
  }

  /** lskip inside a placed string walks it as it would walk the string alone. */
  lemma {:induction false} ShiftSkip(b: seq<char>, o: nat, x: string, i: nat)
    requires Placed(b, o, x) && i <= |x|
    ensures SkipSpaces(b, o + i) == o + SkipSpaces(x, i)
    decreases |x| - i
  {
    if i < |x| {
      assert b[o + i] == b[o..o + |x|][i] == x[i];
      if IsSpace(x[i]) {
        ShiftSkip(b, o, x, i + 1);
      }
    }
  }

  /** find_char_or_comment inside a placed string walks it as it would walk the string alone. */
  lemma {:induction false} ShiftFind(b: seq<char>, o: nat, x: string, i: nat, c: char)
    requires Placed(b, o, x) && i <= |x|
    ensures FindFrom(b, o + i, c) == o + FindFrom(x, i, c)
    decreases |x| - i
  {
    if i < |x| {
      assert b[o + i] == b[o..o + |x|][i] == x[i];
      if !Stops(x[i], c) {
        ShiftFind(b, o, x, i + 1, c);
      }
    }
  }

  /** rstrip of [lo, hi) reads only that range, so it agrees wherever the range agrees. */
  lemma {:induction false} ShiftTrim(b: seq<char>, o: nat, x: string, lo: nat, hi: nat)
    requires lo <= hi <= |x| && o + hi <= |b| && b[o..o + hi] == x[..hi]
    ensures TrimEnd(b, o + lo, o + hi) == o + TrimEnd(x, lo, hi)
    decreases hi - lo
  {
    if hi > lo {
      assert b[o + hi - 1] == b[o..o + hi][hi - 1] == x[hi - 1];
      if IsSpace(x[hi - 1]) {
        assert b[o..o + hi - 1] == b[o..o + hi][..hi - 1];
        ShiftTrim(b, o, x, lo, hi - 1);
      }
    }
  }

  /** strlen. */
  method StrLen(buf: array<char>, s: nat) returns (n: nat)
    requires Terminated(buf[..]) && s < buf.Length
    ensures s + n == Nul(buf[..], s) && s + n < buf.Length
  {
    n := 0;
    while buf[s + n] != '\0'
      invariant s + n < buf.Length && Nul(buf[..], s + n) == Nul(buf[..], s)
      decreases buf.Length - s - n
    {
      n := n + 1;
    }
  }

  /** lskip on the buffer. */
  method LSkipBuf(buf: array<char>, s: nat) returns (r: nat)
    requires Terminated(buf[..]) && s < buf.Length
    ensures r == SkipSpaces(buf[..], s) && r < buf.Length
  {
    r := s;
    while IsSpace(buf[r])
      invariant s <= r < buf.Length && SkipSpaces(buf[..], r) == SkipSpaces(buf[..], s)
      decreases buf.Length - r
    {
      r := r + 1;
    }
  }

  /** find_char_or_comment on the buffer. */
  method FindBuf(buf: array<char>, s: nat, c: char) returns (r: nat)
    requires Terminated(buf[..]) && s < buf.Length
    ensures r == FindFrom(buf[..], s, c) && r < buf.Length
  {
    r := s;
    while buf[r] != '\0' && buf[r] != c && buf[r] != ';' && buf[r] != '#'
      invariant s <= r < buf.Length && FindFrom(buf[..], r, c) == FindFrom(buf[..], s, c)
      decreases buf.Length - r
    {
      r := r + 1;
    }
  }

  /** rstrip on the buffer: walking back from the string's NUL, each trailing space becomes a NUL. */
  method RStripBuf(buf: array<char>, s: nat)
    modifies buf
    requires Terminated(buf[..]) && s < buf.Length
    ensures Terminated(buf[..])
    ensures var n := Nul(old(buf[..]), s);
      buf[..] == Nulled(old(buf[..]), TrimEnd(old(buf[..]), s, n), n)
  {
    var n := StrLen(buf, s);
    var p := NulBack(buf, s, s + n);
  }

  /** The loop of rstrip: from `hi` down, while above `lo` and the byte below is whitespace, that byte becomes a NUL. */
  method NulBack(buf: array<char>, lo: nat, hi: nat) returns (p: nat)
    modifies buf
    requires lo <= hi <= buf.Length
    ensures p == TrimEnd(old(buf[..]), lo, hi)
    ensures buf[..] == Nulled(old(buf[..]), p, hi)
  {
    ghost var b := buf[..];
    ghost var target := TrimEnd(b, lo, hi);
    TrimAll(b, lo, hi);
    p := hi;
    NulledEmpty(b, p);
    while p > lo && IsSpace(buf[p - 1])
      invariant target <= p <= hi
      invariant buf[..] == Nulled(b, p, hi)
    {
      NulledStep(b, p - 1, hi);
      assert buf[p - 1] == buf[..][p - 1] == b[p - 1];
      p := p - 1;
      ghost var before := buf[..];
      buf[p] := '\0';
      assert buf[..] == before[p := '\0'];
    }
  }

  /** One more NUL written just below a NUL-filled range extends the range. */
  lemma {:induction false} NulledStep(b: seq<char>, lo: nat, hi: nat)
    requires lo < hi <= |b|
    ensures Nulled(b, lo + 1, hi)[lo] == b[lo]
    ensures Nulled(b, lo, hi) == Nulled(b, lo + 1, hi)[lo := '\0']
  {
  }

  /** The string at `s`, as the handler reads it through the pointer it is given; `x` is the string placed there. */
  method ReadStr(buf: array<char>, s: nat, ghost x: string) returns (str: string)
    requires Terminated(buf[..]) && Placed(buf[..], s, x)
    ensures str == x
  {
    PlacedRead(buf[..], s, x);
    var n := StrLen(buf, s);
    str := buf[s..s + n];
  }

  /** strncpy of at most 49 characters of the string `x` placed at `s` into the section buffer. */
  method CopySection(buf: array<char>, s: nat, ghost x: string) returns (section: string)
    requires Terminated(buf[..]) && Placed(buf[..], s, x)
    ensures section == Truncate(x, MAX_SECTION - 1)
  {
    PlacedRead(buf[..], s, x);
    var n := StrLen(buf, s);
    if n > MAX_SECTION - 1 {
      n := MAX_SECTION - 1;
    }
    section := buf[s..s + n];
  }

  // ---------------------------------------------------------------------
  // The buffer before and after each step of one pass, as lemmas on
  // snapshots of the array.

  /** fgets's buffer holds the line followed by a NUL: its content is placed at the start. */
  lemma {:induction false} LineBuffer(raw: string, b0: seq<char>)
    requires b0 == raw + ['\0']
    ensures Terminated(b0) && Placed(b0, 0, Content(raw))
  {
    var c := Content(raw);
    assert b0[0..|c|] == c;
  }

  /** rstrip then cuts off the line's trailing whitespace. */
  lemma {:induction false} LineStripped(raw: string, b0: seq<char>, b1: seq<char>, lo: nat, hi: nat)
    requires Terminated(b0) && Placed(b0, 0, Content(raw))
    requires hi == Nul(b0, 0) && lo == TrimEnd(b0, 0, hi) && b1 == Nulled(b0, lo, hi)
    ensures Terminated(b1) && Placed(b1, 0, RightStripped(raw))
  {
    var c := Content(raw);
    ShiftNul(b0, 0, c, 0);
    ShiftTrim(b0, 0, c, 0, |c|);
    NulledTerminated(b0, lo, hi);
    assert RightStripped(raw) == c[..lo];
    if lo < hi {
      PlacedCut(b0, 0, c, lo, lo, hi);
    } else {
      NulledEmpty(b0, hi);
      assert c[..lo] == c;
    }
  }




  /** lskip from the start of the stripped line finds the trimmed line, placed where it starts. */
  lemma {:induction false} LineTrimmed(raw: string, b1: seq<char>, start: nat)
    requires Placed(b1, 0, RightStripped(raw)) && start == SkipSpaces(b1, 0)
    ensures start <= |RightStripped(raw)| && Placed(b1, start, Trimmed(raw))
    ensures Trimmed(raw) == [] ==> b1[start] == '\0'
    ensures Trimmed(raw) != [] ==> b1[start] == Trimmed(raw)[0]
  {
    var r := RightStripped(raw);
    ShiftSkip(b1, 0, r, 0);
    PlacedSuffix(b1, 0, r, start);
    var t := Trimmed(raw);
    assert r[start..] == t;
    if t != [] {
      assert b1[start] == b1[start..start + |t|][0];
    }
  }

  /** Reading a placed string through its pointer gives the string. */
  lemma {:induction false} PlacedRead(b: seq<char>, o: nat, x: string)
    requires Placed(b, o, x)
    ensures Nul(b, o) == o + |x| && b[o..Nul(b, o)] == x
  {
    ShiftNul(b, o, x, 0);
  }

  /** find_char_or_comment from `i` in a placed string, and the character it stops at. */
  lemma {:induction false} PlacedFind(b: seq<char>, o: nat, x: string, i: nat, c: char, end: nat)
    requires Placed(b, o, x) && i <= |x| && end == FindFrom(b, o + i, c)
    ensures o + i <= end <= o + |x| && end == o + FindFrom(x, i, c)
    ensures end - o < |x| ==> b[end] == x[end - o]
    ensures end - o == |x| ==> b[end] == '\0'
  {
    ShiftFind(b, o, x, i, c);
    if end - o < |x| {
      assert b[end] == b[o..o + |x|][end - o];
    }
  }

  /** A NUL written over the `]` of a section header leaves the section name placed just after the `[`. */
  lemma {:induction false} SectionCut(b1: seq<char>, start: nat, t: string, end: nat)
    requires Placed(b1, start, t) && start < end < start + |t| && Terminated(b1)
    ensures Terminated(b1[end := '\0']) && Placed(b1[end := '\0'], start + 1, t[1..end - start])
  {
    var f := end - start;
    assert b1[end := '\0'] == Nulled(b1, end, end + 1);
    PlacedCut(b1, start, t, f, end, end + 1);
    PlacedSuffix(b1[end := '\0'], start, t[..f], 1);
    assert t[..f][1..] == t[1..f];
  }


  /** rstrip on the name of a key line changes nothing: the trimmed line ends in a non-blank character. */
  lemma {:induction false} NameStripped(b1: seq<char>, start: nat, t: string)
    requires Placed(b1, start, t) && t != [] && !IsSpace(t[|t| - 1])
    ensures Nulled(b1, TrimEnd(b1, start, Nul(b1, start)), Nul(b1, start)) == b1
  {
    ShiftNul(b1, start, t, 0);
    ShiftTrim(b1, start, t, 0, |t|);
    NulledEmpty(b1, start + |t|);
  }

  /** lskip after the `=` finds the start of the value. */
  lemma {:induction false} ValueFound(b1: seq<char>, start: nat, t: string, e: nat, end: nat, value: nat)
    requires Placed(b1, start, t) && e < |t| && end == start + e && value == SkipSpaces(b1, end + 1)
    ensures value == start + SkipSpaces(t, e + 1)
  {
    ShiftSkip(b1, start, t, e + 1);
  }

  /** A NUL written over a comment character leaves the line up to it placed. */
  lemma {:induction false} CommentCut(b1: seq<char>, start: nat, t: string, end: nat)
    requires Placed(b1, start, t) && start <= end < start + |t| && Terminated(b1)
    ensures Terminated(b1[end := '\0']) && Placed(b1[end := '\0'], start, t[..end - start])
  {
    assert b1[end := '\0'] == Nulled(b1, end, end + 1);
    PlacedCut(b1, start, t, end - start, end, end + 1);
  }


  /** rstrip on the value of a key line cut at `cut`: name and value both end where the value's trailing blanks began. */
  lemma {:induction false} ValueStripped(b2: seq<char>, start: nat, t: string, value: nat, v: nat, cut: nat, b3: seq<char>, lo: nat, hi: nat)
    requires cut <= |t| && v <= cut && value == start + v && Terminated(b2) && Placed(b2, start, t[..cut])
    requires hi == Nul(b2, value) && lo == TrimEnd(b2, value, hi) && b3 == Nulled(b2, lo, hi)
    ensures var vend := TrimEnd(t, v, cut);
      Terminated(b3) && Placed(b3, start, t[..vend]) && Placed(b3, value, t[v..vend])
  {
    var vend := TrimEnd(t, v, cut);
    ValueEnd(b2, start, t, value, v, cut, b3, lo, hi);
    PlacedSuffix(b3, start, t[..vend], v);
    assert t[..vend][v..] == t[v..vend];
  }


  /** The first half of ValueStripped: the line now ends where the value's trailing blanks began. */
  lemma {:induction false} ValueEnd(b2: seq<char>, start: nat, t: string, value: nat, v: nat, cut: nat, b3: seq<char>, lo: nat, hi: nat)
    requires cut <= |t| && v <= cut && value == start + v && Terminated(b2) && Placed(b2, start, t[..cut])
    requires hi == Nul(b2, value) && lo == TrimEnd(b2, value, hi) && b3 == Nulled(b2, lo, hi)
    ensures Terminated(b3) && Placed(b3, start, t[..TrimEnd(t, v, cut)])
  {
    var x := t[..cut];
    var vend := TrimEnd(t, v, cut);
    ValueEndAt(b2, start, t, v, cut);
    assert hi == start + cut && lo == start + vend;
    NulledTerminated(b2, lo, hi);
    assert x[..vend] == t[..vend];
    if lo < hi {
      PlacedCut(b2, start, x, vend, lo, hi);
    } else {
      NulledEmpty(b2, hi);
      assert x[..vend] == x;
    }
  }


  /** Where rstrip on the value stops, and where the value's string ends before it. */
  lemma {:induction false} ValueEndAt(b2: seq<char>, start: nat, t: string, v: nat, cut: nat)
    requires cut <= |t| && v <= cut && Placed(b2, start, t[..cut])
    ensures Nul(b2, start + v) == start + cut
    ensures TrimEnd(b2, start + v, start + cut) == start + TrimEnd(t, v, cut)
  {
    var x := t[..cut];
    ShiftNul(b2, start, x, v);
    ShiftTrim(b2, start, x, v, cut);
    ShiftTrim(t, 0, x, v, cut);
  }

  /** Writing NULs keeps a buffer terminated. */
  lemma {:induction false} NulledTerminated(b: seq<char>, lo: nat, hi: nat)
    requires Terminated(b)
    ensures Terminated(Nulled(b, lo, hi))
  {
    assert Nulled(b, lo, hi)[|b| - 1] == '\0';
  }

  /**
   * One pass of the loop body of ini_parse_stream: the line fgets delivered
   * is copied into a NUL-terminated buffer, trimmed in place, and
   * classified; for a section header or a key line the buffer is cut
   * further and the strings are read out of it.
   */
  method ScanLine(raw: string) returns (p: Parsed)
    ensures p == ParseLine(raw)
  {
    var line := new char[|raw| + 1](i requires 0 <= i <= |raw| => if i < |raw| then raw[i] else '\0');
    ghost var b0 := line[..];
    assert b0 == raw + ['\0'];
    LineBuffer(raw, b0);
    RStripBuf(line, 0);
    LineStripped(raw, b0, line[..], TrimEnd(b0, 0, Nul(b0, 0)), Nul(b0, 0));
    var start := LSkipBuf(line, 0);
    LineTrimmed(raw, line[..], start);
    p := ScanTrimmed(line, start, Trimmed(raw));
  }

  /** The trimmed line at `start`: skipped when blank or a comment, else a section header or a key line. */
  method ScanTrimmed(line: array<char>, start: nat, ghost t: string) returns (p: Parsed)
    modifies line
    requires Terminated(line[..]) && Placed(line[..], start, t)
    requires t == [] || (!IsSpace(t[0]) && !IsSpace(t[|t| - 1]))
    requires t == [] ==> line[start] == '\0'
    requires t != [] ==> line[start] == t[0]
    ensures p == Classify(t)
  {
    if line[start] == ';' || line[start] == '#' || line[start] == '\0' {
      return Skip;
    }
    if line[start] == '[' {
      p := ScanSection(line, start, t);
      return;
    }
    p := ScanKey(line, start, t);
  }

  /** A line starting with `[`: the `]` is cut off and at most 49 characters are copied as the section. */
  method ScanSection(line: array<char>, start: nat, ghost t: string) returns (p: Parsed)
    modifies line
    requires Terminated(line[..]) && Placed(line[..], start, t) && t != []
    ensures p == SectionLine(t)
  {
    ghost var b1 := line[..];
    var end := FindBuf(line, start + 1, ']');
    PlacedFind(b1, start, t, 1, ']', end);
    if line[end] != ']' {
      return Skip;
    }
    line[end] := '\0';
    SectionCut(b1, start, t, end);
    assert line[..] == b1[end := '\0'];
    var section := CopySection(line, start + 1, t[1..end - start]);
    p := Section(section);
  }

  /**
   * Any other line: the `=` is looked for, the name (the whole line) right
   * stripped, and the value skipped to; the rest is ScanValue.
   */
  method ScanKey(line: array<char>, start: nat, ghost t: string) returns (p: Parsed)
    modifies line
    requires Terminated(line[..]) && Placed(line[..], start, t)
    requires t != [] && !IsSpace(t[|t| - 1])
    ensures p == KeyLine(t)
  {
    ghost var b1 := line[..];
    var end := FindBuf(line, start, '=');
    PlacedFind(b1, start, t, 0, '=', end);
    ghost var e := FindFrom(t, 0, '=');
    if line[end] != '=' {
      return Skip;
    }
    p := ScanPair(line, start, t, end, e);
  }

  /** A key line with its `=` at `end`: the name is right stripped, the value skipped to, and the rest is ScanValue. */
  method ScanPair(line: array<char>, start: nat, ghost t: string, end: nat, ghost e: nat) returns (p: Parsed)
    modifies line
    requires Terminated(line[..]) && Placed(line[..], start, t)
    requires t != [] && !IsSpace(t[|t| - 1]) && e < |t| && end == start + e
    ensures p == ValuePair(t, SkipSpaces(t, e + 1))
  {
    ghost var b1 := line[..];
    RStripBuf(line, start);
    NameStripped(b1, start, t);
    assert line[..] == b1;
    var value := LSkipBuf(line, end + 1);
    ghost var v := SkipSpaces(t, e + 1);
    ValueFound(b1, start, t, e, end, value);
    p := ScanValue(line, start, t, value, v);
  }

  /** The value of a key line from its first non-blank character on: cut at a comment, right stripped, and read out with the name. */
  method ScanValue(line: array<char>, start: nat, ghost t: string, value: nat, ghost v: nat) returns (p: Parsed)
    modifies line
    requires Terminated(line[..]) && Placed(line[..], start, t)
    requires v <= |t| && value == start + v
    ensures p == ValuePair(t, v)
  {
    var end := CutComment(line, start, t, value, v);
    StripValue(line, start, t, value, v, end - start);
    ghost var vend := TrimEnd(t, v, end - start);
    var name := ReadStr(line, start, t[..vend]);
    var val := ReadStr(line, value, t[v..vend]);
    p := Pair(name, val);
  }

  /** rstrip(value): the line, and the value within it, now end where the value's trailing whitespace began. */
  method StripValue(line: array<char>, start: nat, ghost t: string, value: nat, ghost v: nat, ghost cut: nat)
    modifies line
    requires cut <= |t| && v <= cut && value == start + v
    requires Terminated(line[..]) && Placed(line[..], start, t[..cut])
    ensures var vend := TrimEnd(t, v, cut);
      Terminated(line[..]) && Placed(line[..], start, t[..vend]) && Placed(line[..], value, t[v..vend])
  {
    ghost var b2 := line[..];
    RStripBuf(line, value);
    ValueStripped(b2, start, t, value, v, cut, line[..], TrimEnd(b2, value, Nul(b2, value)), Nul(b2, value));
  }

  /** The comment, if any, after the value is cut off with a NUL; the line up to it stays placed. */
  method CutComment(line: array<char>, start: nat, ghost t: string, value: nat, ghost v: nat) returns (end: nat)
    modifies line
    requires Terminated(line[..]) && Placed(line[..], start, t)
    requires v <= |t| && value == start + v
    ensures value <= end <= start + |t| && end - start == FindFrom(t, v, '\0')
    ensures Terminated(line[..]) && Placed(line[..], start, t[..end - start])
  {
    ghost var b1 := line[..];
    end := FindBuf(line, value, '\0');
    PlacedFind(b1, start, t, v, '\0', end);
    if line[end] == ';' || line[end] == '#' {
      line[end] := '\0';
      CommentCut(b1, start, t, end);
      assert line[..] == b1[end := '\0'];
    } else {
      assert t[..end - start] == t;
    }
  }

  /**
   * ini_parse_stream: every line is scanned; a section header replaces the
   * current section, a key line is handed to the handler, and a negative
   * answer ends the parse with 0. The calls made are returned with the
   * result.
   */
  method ParseStream(lines: seq<string>, handler: Handler) returns (result: int, calls: seq<Handled>)
    ensures (result, calls) == Run(lines, handler, "")
  {
    var section := "";
    calls := [];
    var i := 0;
    assert lines[i..] == lines && calls + Run(lines, handler, section).1 == Run(lines, handler, section).1;
    while i < |lines|
      invariant 0 <= i <= |lines|
      invariant Run(lines, handler, "") == After(calls, Run(lines[i..], handler, section))
    {
      var p := ScanLine(lines[i]);
      RunFrom(lines, i, handler, section);
      match p {
        case Skip =>
        case Section(s) =>
          section := s;
        case Pair(n, v) =>
          var call := Handled(section, n, v);
          AfterAppend(calls, call, Run(lines[i + 1..], handler, section));
          calls := calls + [call];
          if handler(section, n, v) < 0 {
            return 0, calls;
          }
      }
      i := i + 1;
    }
    assert lines[i..] == [] && calls + [] == calls;
    return 1, calls;
  }

  /** The outcome of a parse whose earlier lines already made `calls`. */
  function After(calls: seq<Handled>, r: (int, seq<Handled>)): (int, seq<Handled>) {
    (r.0, calls + r.1)
  }

  lemma {:induction false} AfterAppend(calls: seq<Handled>, call: Handled, r: (int, seq<Handled>))
    ensures After(calls, (r.0, [call] + r.1)) == After(calls + [call], r)
    ensures After(calls, (0, [call])) == (0, calls + [call])
  {
    assert calls + ([call] + r.1) == (calls + [call]) + r.1;
  }

  /** The parse from line `i` on, one line unfolded. */
  lemma {:induction false} RunFrom(lines: seq<string>, i: nat, handler: Handler, section: string)
    requires i < |lines|
    ensures var rest := Run(lines[i + 1..], handler, section);
      Run(lines[i..], handler, section) ==
        match ParseLine(lines[i])
        case Skip => rest
        case Section(s) => Run(lines[i + 1..], handler, s)
        case Pair(n, v) =>
          if handler(section, n, v) < 0 then (0, [Handled(section, n, v)])
          else (rest.0, [Handled(section, n, v)] + rest.1)
  {
    assert lines[i..][0] == lines[i];
    assert lines[i..][1..] == lines[i + 1..];
  }

  /** ini_parse: -1 when the file cannot be opened (`fileOpened` is fopen's success), otherwise the stream's result. */
  method Parse(fileOpened: bool, lines: seq<string>, handler: Handler) returns (result: int, calls: seq<Handled>)
    ensures !fileOpened ==> result == -1 && calls == []
    ensures fileOpened ==> (result, calls) == Run(lines, handler, "")
    ensures -1 <= result <= 1
  {
    if !fileOpened {
      return -1, [];
    }
    result, calls := ParseStream(lines, handler);
  }
}
