/** extractJSON: the object in an agent's reply (internal/rag/answer.go). */
module JsonExtract {
  import opened Wrappers
  import opened Bytes

  const QUOTE: byte := 0x22
  const BACKSLASH: byte := 0x5C
  const OPEN: byte := 0x7B
  const CLOSE: byte := 0x7D
  const NEWLINE: byte := 0x0A
  const FENCE: Text := [0x60, 0x60, 0x60]

  /** The state of the scan after some bytes: how deep, in a string, after a backslash. */
  datatype State = State(depth: int, inStr: bool, esc: bool)

  function Step(st: State, c: byte): State {
    if st.esc then st.(esc := false)
    else if st.inStr && c == BACKSLASH then st.(esc := true)
    else if c == QUOTE then st.(inStr := !st.inStr)
    else if st.inStr then st
    else if c == OPEN then st.(depth := st.depth + 1)
    else if c == CLOSE then st.(depth := st.depth - 1)
    else st
  }

  /** This byte closes the first brace. */
  predicate Closes(st: State, c: byte) {
    !st.esc && !st.inStr && c == CLOSE && st.depth == 1
  }

  /** The length of the object at the start of `s`, when it closes. */
  function Span(st: State, s: Text): Option<nat>
    decreases |s|
  {
    if s == [] then None
    else if Closes(st, s[0]) then Some(1)
    else
      match Span(Step(st, s[0]), s[1..])
      case None => None
      case Some(n) => Some(n + 1)
  }

  const START := State(0, false, false)

  /** The first place `pat` occurs, or the length of the text. */
  function Index(s: Text, pat: Text): (i: nat)
    requires pat != []
    ensures i <= |s|
    ensures i < |s| ==> OccursAt(s, pat, i)
    ensures forall j :: 0 <= j < i ==> !OccursAt(s, pat, j)
    decreases |s|
  {
    if s == [] then 0
    else if |pat| <= |s| && s[..|pat|] == pat then
      assert OccursAt(s, pat, 0);
      0
    else
      var i := Index(s[1..], pat) + 1;
      ShiftOccurs(s, pat);
      i
  }

  lemma ShiftOccurs(s: Text, pat: Text)
    requires s != []
    ensures forall j :: 0 <= j ==> (OccursAt(s, pat, j + 1) <==> OccursAt(s[1..], pat, j))
    ensures forall j :: 0 < j ==> (OccursAt(s, pat, j) <==> OccursAt(s[1..], pat, j - 1))
  {
    forall j | 0 <= j ensures OccursAt(s, pat, j + 1) <==> OccursAt(s[1..], pat, j) {
      if j + 1 <= |s| - |pat| {
        assert s[1..][j..j + |pat|] == s[j + 1..j + 1 + |pat|];
      }
    }
    forall j | 0 < j ensures OccursAt(s, pat, j) <==> OccursAt(s[1..], pat, j - 1) {
      assert OccursAt(s, pat, j - 1 + 1) <==> OccursAt(s[1..], pat, j - 1);
    }
  }

  /** What follows the first line, up to the next fence. */
  function FirstBlock(rest: Text): Text {
    var nl := Index(rest, [NEWLINE]);
    var body := if nl < |rest| then rest[nl + 1..] else rest;
    body[..Index(body, FENCE)]
  }

  /** The text inside the first code fence, or all of it. */
  function Unfenced(s: Text): Text {
    var f := Index(s, FENCE);
    if f + 3 <= |s| then TrimSpace(FirstBlock(s[f + 3..])) else s
  }

  /** The object that starts at `i`, or all of the text when it does not close. */
  function ObjectAt(s: Text, i: nat): Text
    requires i <= |s|
  {
    match Span(START, s[i..])
    case None => s
    case Some(n) => if i + n <= |s| then s[i..i + n] else s
  }

  function FirstObject(s: Text): Text {
    ObjectAt(s, Index(s, [OPEN]))
  }

  function Extracted(raw: Text): Text {
    FirstObject(Unfenced(TrimSpace(raw)))
  }

  lemma {:induction false} SpanBound(st: State, s: Text)
    ensures Span(st, s).Some? ==> 1 <= Span(st, s).value <= |s| && s[Span(st, s).value - 1] == CLOSE
    decreases |s|
  {
    hide Step;
    if s != [] && !Closes(st, s[0]) {
      SpanBound(Step(st, s[0]), s[1..]);
    }
  }

  // ---- the loop

  method Find(s: Text, pat: Text) returns (i: nat)
    requires pat != []
    ensures i == Index(s, pat)
  {
    i := 0;
    while i < |s| && !(i + |pat| <= |s| && s[i..i + |pat|] == pat)
      invariant i <= |s| && forall j :: 0 <= j < i ==> !OccursAt(s, pat, j)
    {
      i := i + 1;
    }
    assert i < |s| ==> OccursAt(s, pat, i);
    IndexIs(s, pat, i);
  }

  lemma IndexIs(s: Text, pat: Text, i: nat)
    requires pat != [] && i <= |s| && (i < |s| ==> OccursAt(s, pat, i)) && forall j :: 0 <= j < i ==> !OccursAt(s, pat, j)
    ensures Index(s, pat) == i
  {
  }

  /** Scans from the first brace to the one that closes it. */
  method ScanObject(s: Text) returns (r: Text)
    ensures r == FirstObject(s)
  {
    hide Span, Index, Step, Closes;
    var i := Find(s, [OPEN]);
    NoSpan(START, s[i..]);
    if i == |s| {
      return s;
    }
    var depth, inStr, esc := 0, false, false;
    ghost var whole := Span(START, s[i..]);
    SpanBound(START, s[i..]);
    PlusNothing(whole);
    var j := i;
    while j < |s|
      invariant i <= j <= |s|
      invariant whole == Plus(Span(State(depth, inStr, esc), s[j..]), j - i)
    {
      SpanStep(State(depth, inStr, esc), s, j);
      var closed;
      depth, inStr, esc, closed := Turn(depth, inStr, esc, s[j]);
      if closed {
        return s[i..j + 1];
      }
      j := j + 1;
    }
    NoSpan(State(depth, inStr, esc), s[j..]);
    r := s;
  }

  /** One byte: whether it closes the first brace, and the state after it. */
  method Turn(depth: int, inStr: bool, esc: bool, c: byte) returns (depth': int, inStr': bool, esc': bool, closed: bool)
    ensures closed == Closes(State(depth, inStr, esc), c)
    ensures State(depth', inStr', esc') == Step(State(depth, inStr, esc), c)
  {
    depth', inStr', esc', closed := depth, inStr, esc, false;
    if esc {
      esc' := false;
    } else if inStr && c == BACKSLASH {
      esc' := true;
    } else if c == QUOTE {
      inStr' := !inStr;
    } else if inStr {
    } else if c == OPEN {
      depth' := depth + 1;
    } else if c == CLOSE {
      depth' := depth - 1;
      closed := depth' == 0;
    }
  }

  lemma PlusNothing(n: Option<nat>)
    ensures Plus(n, 0) == n
  {
  }

  lemma NoSpan(st: State, s: Text)
    ensures s == [] ==> Span(st, s) == None
  {
  }

  function Plus(n: Option<nat>, k: nat): Option<nat> {
    match n
    case None => None
    case Some(m) => Some(m + k)
  }

  lemma SpanStep(st: State, s: Text, j: nat)
    requires j < |s|
    ensures Span(st, s[j..]) == if Closes(st, s[j]) then Some(1) else Plus(Span(Step(st, s[j]), s[j + 1..]), 1)
  {
    assert s[j..][1..] == s[j + 1..];
    hide Step, Closes;
  }

  method ExtractJSON(raw: Text) returns (r: Text)
    ensures r == Extracted(raw)
  {
    var s := TrimSpace(raw);
    hide Index, TrimSpace, FirstObject;
    var f := Find(s, FENCE);
    assert f < |s| ==> OccursAt(s, FENCE, f);
    if f < |s| {
      var rest := s[f + 3..];
      var nl := Find(rest, [NEWLINE]);
      if nl < |rest| {
        rest := rest[nl + 1..];
      }
      var c := Find(rest, FENCE);
      s := TrimSpace(rest[..c]);
    }
    r := ScanObject(s);
  }
}
