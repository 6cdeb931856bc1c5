/** Replies that do not close what they open, or fence it on one line
    (internal/rag/answer.go). */
module JsonReplies {
  import opened Bytes
  import opened JsonExtract
  import opened JsonObject
  import White = WhiteSpace

  lemma Nowhere(s: Text, pat: Text)
    requires pat != [] && Lacks(s, pat)
    ensures Index(s, pat) == |s|
  {
    hide OccursAt;
  }

  lemma {:induction false} NeverCloses(st: State, s: Text)
    requires CLOSE !in s
    ensures Span(st, s).None?
    decreases |s|
  {
    hide Step;
    if s != [] {
      NeverCloses(Step(st, s[0]), s[1..]);
    }
  }

  lemma TrimInside(s: Text) returns (i: nat, j: nat)
    ensures i <= j <= |s| && TrimSpace(s) == s[i..j]
  {
    hide TrimLeft, TrimRight;
    i := LeftCut(s);
    var t := TrimLeft(s);
    var n := RightCut(t);
    j := i + n;
    assert t[..n] == s[i..j];
  }

  lemma {:induction false} LeftCut(s: Text) returns (i: nat)
    ensures i <= |s| && TrimLeft(s) == s[i..]
    decreases |s|
  {
    hide SpaceAtStart;
    var n := SpaceAtStart(s);
    if n == 0 {
      i := 0;
      assert s[0..] == s;
    } else {
      var m := LeftCut(s[n..]);
      i := n + m;
    }
  }

  lemma {:induction false} RightCut(s: Text) returns (n: nat)
    ensures n <= |s| && TrimRight(s) == s[..n]
    decreases |s|
  {
    hide SpaceAtEnd;
    var k := SpaceAtEnd(s);
    if k == 0 {
      n := |s|;
      assert s[..n] == s;
    } else {
      n := RightCut(s[..|s| - k]);
    }
  }

  /** A reply without a fence in which no brace is closed is left as it is, trimmed. */
  lemma NothingClosed(raw: Text)
    requires Lacks(raw, FENCE) && CLOSE !in raw
    ensures Extracted(raw) == TrimSpace(raw)
  {
    hide Index, Span, TrimSpace, Lacks;
    var s := TrimSpace(raw);
    var i, j := TrimInside(raw);
    assert raw == raw[..i] + s + raw[j..];
    NoFenceLeft(raw[..i], s, raw[j..]);
    var k := Index(s, [OPEN]);
    forall c | c in s[k..] ensures c in raw {
      assert c in s;
    }
    NeverCloses(START, s[k..]);
  }

  /** White space around a reply does not matter. */
  lemma PaddedReply(a: Text, raw: Text, b: Text)
    requires White.Blank(a) && White.Blank(b)
    ensures Extracted(a + raw + b) == Extracted(raw)
  {
    hide White.Blank, TrimSpace, Unfenced, FirstObject;
    White.TrimAround(a, raw, b);
  }

  // ---- a fence that does not close, or has no line of its own

  /** The rest of the line of an opening fence, or nothing when no line ends after it. */
  predicate Opens(opening: Text, block: Text) {
    if opening == [] then NEWLINE !in block
    else opening[|opening| - 1] == NEWLINE && NEWLINE !in opening[..|opening| - 1]
  }

  lemma BlockBegins(opening: Text, block: Text)
    requires Opens(opening, block)
    ensures FirstBlock(opening + block) == block[..Index(block, FENCE)]
  {
    hide Index;
    if opening == [] {
      NoByte(block, NEWLINE);
      Nowhere(block, [NEWLINE]);
      assert opening + block == block;
    } else {
      var tag := opening[..|opening| - 1];
      LineFirst(tag, block);
      assert opening == tag + [NEWLINE];
      assert (opening + block)[|tag| + 1..] == block;
    }
  }

  lemma Inside(a: Text, opening: Text, block: Text)
    requires Opens(opening, block) && Index(a + (FENCE + opening + block), FENCE) == |a|
    ensures Unfenced(a + (FENCE + opening + block)) == TrimSpace(block[..Index(block, FENCE)])
  {
    hide Index, TrimSpace, FirstBlock, Opens, Unfenced, OccursAt;
    BlockBegins(opening, block);
    AfterFence(a, FENCE, opening + block);
    assert FENCE + opening + block == FENCE + (opening + block);
    UnfencedAt(a + (FENCE + opening + block), |a|);
  }

  lemma UnfencedAt(s: Text, f: nat)
    requires f + 3 <= |s| && Index(s, FENCE) == f
    ensures Unfenced(s) == TrimSpace(FirstBlock(s[f + 3..]))
  {
    hide Index, TrimSpace, FirstBlock, OccursAt;
  }

  lemma AfterFence(a: Text, fence: Text, rest: Text)
    ensures (a + (fence + rest))[|a| + |fence|..] == rest && |a| + |fence| <= |a + (fence + rest)|
  {
  }

  lemma NoByte(s: Text, b: byte)
    requires b !in s
    ensures Lacks(s, [b])
  {
    forall i | 0 <= i < |s| ensures !OccursAt(s, [b], i) {
      assert s[i..i + 1][0] == s[i];
    }
  }

  lemma LacksPrefix(s: Text, t: Text, pat: Text)
    requires Lacks(s + t, pat)
    ensures Lacks(s, pat)
  {
    assert [] + s + t == s + t;
    forall i | 0 <= i <= |s| ensures !OccursAt(s, pat, i) {
      if OccursAt(s, pat, i) {
        OccursInside([], s, t, pat, i);
      }
    }
  }

  /** What is in the fence of a trimmed reply that never closes it. */
  lemma UnclosedBlock(a: Text, opening: Text, block: Text, more: Text)
    requires Opens(opening, block + more) && Lacks(block + more, FENCE)
    requires Index(a + (FENCE + opening + block), FENCE) == |a|
    ensures Unfenced(a + (FENCE + opening + block)) == TrimSpace(block)
  {
    hide Unfenced, TrimSpace, Index, Lacks, OccursAt, Opens;
    LacksPrefix(block, more, FENCE);
    Nowhere(block, FENCE);
    StillOpens(opening, block, more);
    Inside(a, opening, block);
    assert block[..|block|] == block;
  }

  /** The object in a fence that is never closed. */
  lemma UnclosedReply(prefix: Text, opening: Text, before: Text, v: Json, after: Text)
    requires Ok(v) && v.Object? && OPEN !in before
    requires
      var block := before + Written(v) + after;
      && Opens(opening, block) && Lacks(block, FENCE)
      && Index(prefix + (FENCE + opening + before + Written(v)) + after, FENCE) == |prefix|
    ensures Extracted(prefix + (FENCE + opening + before + Written(v)) + after) == Written(v)
  {
    hide Written, Unfenced, FirstObject, TrimSpace, Index, Ok, Lacks, OccursAt, Opens;
    WrittenEnds(v);
    var core := FENCE + opening + before + Written(v);
    CoreEnds(opening, before, Written(v));
    var k, l := TrimAround(prefix, core, after);
    FenceFirst(prefix, k, core, after, l);
    Pieces(prefix[k..], FENCE, opening, before, Written(v), after, l);
    UnclosedBlock(prefix[k..], opening, before + Written(v) + after[..l], after[l..]);
    ObjectWithin(before, v, after[..l]);
  }

  lemma ObjectWithin(before: Text, v: Json, after: Text)
    requires Ok(v) && v.Object? && OPEN !in before
    ensures FirstObject(TrimSpace(before + Written(v) + after)) == Written(v)
  {
    hide Written, FirstObject, TrimSpace, Ok;
    WrittenEnds(v);
    var m, n := TrimAround(before, Written(v), after);
    ObjectAfter(before[m..], v, after[..n]);
  }

  lemma CoreEnds(opening: Text, before: Text, w: Text)
    requires w != [] && w[|w| - 1] == CLOSE
    ensures
      var core := FENCE + opening + before + w;
      core[0] == 0x60 && core[|core| - 1] == CLOSE && core[..3] == FENCE
  {
  }

  lemma Pieces(a: Text, fence: Text, opening: Text, before: Text, w: Text, after: Text, l: nat)
    requires l <= |after|
    ensures before + w + after == before + w + after[..l] + after[l..]
    ensures a + (fence + opening + before + w) + after[..l] == a + (fence + opening + (before + w + after[..l]))
  {
  }

  lemma StillOpens(opening: Text, block: Text, more: Text)
    requires Opens(opening, block + more)
    ensures Opens(opening, block)
  {
    assert forall c :: c in block ==> c in block + more;
  }

  /** The object between two fences of one line. */
  lemma OneLineReply(prefix: Text, before: Text, v: Json, after: Text, suffix: Text)
    requires Ok(v) && v.Object? && OPEN !in before
    requires
      var inner := before + Written(v) + after;
      && NEWLINE !in inner + FENCE + suffix
      && Index(inner + FENCE + suffix, FENCE) == |inner|
      && Index(prefix + (FENCE + inner + FENCE) + suffix, FENCE) == |prefix|
    ensures Extracted(prefix + (FENCE + (before + Written(v) + after) + FENCE) + suffix) == Written(v)
  {
    hide Written, Unfenced, FirstObject, TrimSpace, Index, Ok, Lacks;
    WrittenEnds(v);
    var inner := before + Written(v) + after;
    var core := FENCE + inner + FENCE;
    assert core[0] == 0x60 && core[|core| - 1] == 0x60 && core[..3] == FENCE;
    var k, l := TrimAround(prefix, core, suffix);
    FenceFirst(prefix, k, core, suffix, l);
    FenceAfter(inner, suffix, l);
    var block := inner + FENCE + suffix[..l];
    Pieces(prefix[k..], FENCE, [], inner, FENCE, suffix, l);
    assert FENCE + [] == FENCE;
    StillOpens([], block, suffix[l..]);
    Inside(prefix[k..], [], block);
    assert block[..|inner|] == inner;
    ObjectWithin(before, v, after);
  }
}
