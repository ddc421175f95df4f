/** The scan over the buffer itself (prep and consumeComment of common/json5/json5.go). */
module Json5Scan {
  import opened Json5

  /** What the scan leaves of the bytes from a slash on: the comment it opens blanked, or nothing changed. */
  function Commented(t: Bytes): (r: Bytes)
    ensures |r| == |t|
  {
    if Opens(t) then ScannedComment(t) + t[|ScannedComment(t)|..] else t
  }

  /** A position no further than the end. */
  function Cut(i: nat, n: nat): nat {
    if i < n then i else n
  }

  /** now is was with r written at p. */
  ghost predicate Written(was: Bytes, now: Bytes, p: nat, r: Bytes) {
    && |now| == |was| && p + |r| <= |was|
    && (forall k :: 0 <= k < p || p + |r| <= k < |was| ==> now[k] == was[k])
    && (forall k :: p <= k < p + |r| ==> now[k] == r[k - p])
  }

  lemma WrittenIs(was: Bytes, now: Bytes, p: nat, r: Bytes)
    requires Written(was, now, p, r)
    ensures now == was[..p] + (r + was[p..][|r|..])
  {
  }

  lemma {:induction false} LineEndIs(u: Bytes, n: nat)
    requires n <= |u| && (n == |u| || IsNL(u[n]))
    requires forall k :: 0 <= k < n ==> !IsNL(u[k])
    ensures LineEnd(u) == n
  {
    if n > 0 {
      LineEndIs(u[1..], n - 1);
    }
  }

  method BlankLine(s: array<byte>, start: nat) returns (i: nat)
    requires 1 <= start < s.Length && s[start - 1] == SLASH && s[start] == SLASH
    modifies s
    ensures i == start - 1 + |ScannedComment(old(s[start - 1..]))| && (i < s.Length ==> IsNL(s[i]))
    ensures s[..] == old(s[..start - 1]) + Commented(old(s[start - 1..]))
  {
    hide LineEnd;
    ghost var was := s[..];
    i := start;
    s[i - 1] := SPACE;
    while i < s.Length && !IsNL(s[i])
      invariant start <= i <= s.Length
      invariant forall k :: 0 <= k < start - 1 || i <= k < s.Length ==> s[k] == was[k]
      invariant forall k :: start - 1 <= k < i ==> s[k] == SPACE
      invariant forall k :: start < k < i ==> !IsNL(was[k])
    {
      s[i] := SPACE;
      i := i + 1;
    }
    LineWritten(was, s[..], start - 1, i);
  }

  lemma LineWritten(was: Bytes, now: Bytes, p: nat, i: nat)
    requires |now| == |was| && p + 2 <= i <= |was| && was[p] == SLASH && was[p + 1] == SLASH
    requires forall k :: 0 <= k < p || i <= k < |was| ==> now[k] == was[k]
    requires forall k :: p <= k < i ==> now[k] == SPACE
    requires (i == |was| || IsNL(was[i])) && forall k :: p + 2 <= k < i ==> !IsNL(was[k])
    ensures now == was[..p] + Commented(was[p..]) && i == p + |ScannedComment(was[p..])|
  {
    hide LineEnd;
    DropDrop(was, p, 2);
    LineEndIs(was[p + 2..], i - (p + 2));
    WrittenIs(was, now, p, Blanks(i - p));
  }

  /** One turn of the block loop at d, against all the bytes it is to write from b on. */
  lemma BlockStep(was: Bytes, goal: Bytes, b: nat, d: nat)
    requires b <= d < |was| && d - b <= |goal| && goal[d - b..] == ScannedBlock(was[d..])
    ensures d - b < |goal| && goal[d - b] == SPACE
    ensures was[d] != STAR ==> goal[d + 1 - b..] == ScannedBlock(was[d + 1..])
    ensures was[d] == STAR && d + 1 == |was| ==> |goal| == d + 1 - b
    ensures was[d] == STAR && d + 1 < |was| && was[d + 1] == SLASH ==> |goal| == d + 2 - b && goal[d + 1 - b] == SPACE
    ensures was[d] == STAR && d + 1 < |was| && was[d + 1] != SLASH ==>
      d + 2 - b <= |goal| && goal[d + 1 - b] == was[d + 1] && goal[d + 2 - b..] == ScannedBlock(was[d + 2..])
  {
    var g := goal[d - b..];
    assert goal[d - b] == g[0];
    DropDrop(was, d, 1);
    DropDrop(goal, d - b, 1);
    if was[d] == STAR && d + 1 < |was| {
      DropDrop(was, d, 2);
      assert goal[d + 1 - b] == g[1];
      if was[d + 1] != SLASH {
        DropDrop(goal, d - b, 2);
        TwoHeads(SPACE, was[d + 1], ScannedBlock(was[d + 2..]));
      }
    } else if was[d] != STAR {
      HeadTail(SPACE, ScannedBlock(was[d + 1..]));
    }
  }

  /** The block comment at p is blanked up to d. */
  ghost predicate Blanking(was: Bytes, now: Bytes, p: nat, d: nat) {
    && |now| == |was| && p + 2 <= d <= |was| && was[p] == SLASH && was[p + 1] == STAR
    && now[p] == SPACE && now[p + 1] == SPACE
    && (forall k :: 0 <= k < p || d <= k < |was| ==> now[k] == was[k])
    && var b, goal := p + 2, ScannedBlock(was[p + 2..]);
    && d - b <= |goal| && goal[d - b..] == ScannedBlock(was[d..])
    && forall k :: b <= k < d ==> now[k] == goal[k - b]
  }

  /** It is blanked, and ends at d. */
  ghost predicate Blanked(was: Bytes, now: Bytes, p: nat, d: nat) {
    p <= d <= |was| && Opens(was[p..]) && now == was[..p] + Commented(was[p..]) && |ScannedComment(was[p..])| == d - p
  }

  lemma BlankingStarts(was: Bytes, p: nat)
    requires p + 2 <= |was| && was[p] == SLASH && was[p + 1] == STAR
    ensures Blanking(was, was[p := SPACE][p + 1 := SPACE], p, p + 2)
  {
    hide ScannedBlock;
  }

  lemma BlankingOn(was: Bytes, before: Bytes, p: nat, d: nat)
    requires Blanking(was, before, p, d) && d < |was| && (before[d] != STAR || d + 1 == |was|)
    ensures Blanking(was, before[d := SPACE], p, d + 1)
  {
    BlockStep(was, ScannedBlock(was[p + 2..]), p + 2, d);
    NoBlock();
    hide ScannedBlock;
  }

  lemma BlankingSkips(was: Bytes, before: Bytes, p: nat, d: nat)
    requires Blanking(was, before, p, d) && d + 1 < |was| && before[d] == STAR && before[d + 1] != SLASH
    ensures Blanking(was, before[d := SPACE], p, d + 2)
  {
    BlockStep(was, ScannedBlock(was[p + 2..]), p + 2, d);
    hide ScannedBlock;
  }

  lemma BlankingCloses(was: Bytes, before: Bytes, p: nat, d: nat)
    requires Blanking(was, before, p, d) && d + 1 < |was| && before[d] == STAR && before[d + 1] == SLASH
    ensures Blanked(was, before[d := SPACE][d + 1 := SPACE], p, d + 2)
  {
    var goal := ScannedBlock(was[p + 2..]);
    BlockStep(was, goal, p + 2, d);
    hide ScannedBlock;
    BlockWritten(was, before[d := SPACE][d + 1 := SPACE], p, p + 2, goal);
  }

  lemma BlankingEnds(was: Bytes, now: Bytes, p: nat)
    requires Blanking(was, now, p, |was|)
    ensures Blanked(was, now, p, |was|)
  {
    NoBlock();
    hide ScannedBlock;
    BlockWritten(was, now, p, p + 2, ScannedBlock(was[p + 2..]));
  }

  /** Returns the position of the closing slash, or a position past the end. */
  method BlankBlock(s: array<byte>, start: nat) returns (i: nat)
    requires 1 <= start < s.Length && s[start - 1] == SLASH && s[start] == STAR
    modifies s
    ensures start <= i <= s.Length + 1 && (i < s.Length ==> s[i] == SPACE)
    ensures Blanked(old(s[..]), s[..], start - 1, if i < s.Length then i + 1 else s.Length)
  {
    hide Blanking, Blanked;
    ghost var was, p := s[..], start - 1;
    i := start;
    s[i - 1] := SPACE;
    s[i] := SPACE;
    assert s[..] == was[p := SPACE][p + 1 := SPACE];
    BlankingStarts(was, p);
    while i < s.Length
      invariant start <= i <= s.Length + 1 && (i == start ==> s[i] == SPACE)
      invariant Blanking(was, s[..], p, if i == start then start + 1 else Cut(i, s.Length))
    {
      ghost var before, d := s[..], i;
      if i > start {
        if s[i] != STAR || i + 1 == s.Length {
          BlankingOn(was, before, p, i);
        } else if s[i + 1] == SLASH {
          BlankingCloses(was, before, p, i);
        } else {
          BlankingSkips(was, before, p, i);
        }
      }
      if s[i] != STAR {
        s[i] := SPACE;
        assert s[..] == before[d := SPACE];
        assert d == start ==> before[d := SPACE] == before;
      } else {
        s[i] := SPACE;
        assert s[..] == before[d := SPACE];
        i := i + 1;
        if i < s.Length {
          if s[i] == SLASH {
            s[i] := SPACE;
            assert s[..] == before[d := SPACE][d + 1 := SPACE];
            return;
          }
        }
      }
      i := i + 1;
    }
    BlankingEnds(was, s[..], p);
  }

  lemma BlockWritten(was: Bytes, now: Bytes, p: nat, b: nat, goal: Bytes)
    requires b == p + 2 && |now| == |was| && b <= |was| && was[p] == SLASH && was[p + 1] == STAR
      && goal == ScannedBlock(was[b..])
    requires forall k :: 0 <= k < p || b + |goal| <= k < |was| ==> now[k] == was[k]
    requires now[p] == SPACE && now[p + 1] == SPACE
    requires forall k :: b <= k < b + |goal| ==> now[k] == goal[k - b]
    ensures now == was[..p] + Commented(was[p..]) && |ScannedComment(was[p..])| == 2 + |goal|
  {
    hide ScannedBlock;
    DropDrop(was, p, 2);
    var r := [SPACE, SPACE] + goal;
    forall k | p <= k < p + |r| ensures now[k] == r[k - p] {
      if k >= b {
        assert r[k - p] == goal[k - b];
      }
    }
    WrittenIs(was, now, p, r);
  }

  lemma NoBlock()
    ensures ScannedBlock([]) == []
  {
  }

  /** How far into t, a slash and what follows it, the scan resumes: after the slash; at the end of the
      line; on the closing slash, by then a blank, of a block comment; or at the end. */
  predicate Resumes(t: Bytes, m: nat) {
    if !Opens(t) then m == 1
    else
      var r := ScannedComment(t);
      (m == |r| && (t[1] == SLASH || m == |t|)) || (t[1] == STAR && m == |r| - 1 && r[m] == SPACE)
  }

  method ConsumeComment(s: array<byte>, start: nat) returns (i: nat)
    requires 1 <= start <= s.Length && s[start - 1] == SLASH
    modifies s
    ensures s[..] == old(s[..start - 1]) + Commented(old(s[start - 1..]))
    ensures start <= i <= s.Length + 1 && Resumes(old(s[start - 1..]), Cut(i, s.Length) - (start - 1))
  {
    hide ScannedComment, Commented;
    i := start;
    ghost var was, p := s[..], start - 1;
    ghost var t := was[p..];
    if i < s.Length && s[i] == SLASH {
      i := BlankLine(s, i);
    }
    if i < s.Length && s[i] == STAR {
      i := BlankBlock(s, i);
      if i < s.Length {
        ClosingIsBlank(was, s[..], p, i);
      }
    }
    NotOpened(t);
  }

  lemma ClosingIsBlank(was: Bytes, now: Bytes, p: nat, i: nat)
    requires p <= i < |was| && Opens(was[p..]) && i - p < |ScannedComment(was[p..])|
    requires now == was[..p] + Commented(was[p..])
    ensures ScannedComment(was[p..])[i - p] == now[i]
  {
    hide ScannedComment;
  }

  lemma NotOpened(t: Bytes)
    ensures !Opens(t) ==> Commented(t) == t
  {
  }

  lemma LastBlank(r: Bytes, rest: Bytes)
    requires r != [] && r[|r| - 1] == SPACE
    ensures var m := |r| - 1; (r + rest)[..m] == r[..m] && (r + rest)[m..] == [SPACE] + rest && r == r[..m] + [SPACE]
  {
  }

  lemma ScanBlank(rest: Bytes)
    ensures Scan([SPACE] + rest) == [SPACE] + Scan(rest)
  {
    HeadTail(SPACE, rest);
  }

  lemma ResumesAt(r: Bytes, rest: Bytes, m: nat)
    requires r != [] && (m == |r| || (m == |r| - 1 && r[m] == SPACE))
    ensures r + Scan(rest) == (r + rest)[..m] + Scan((r + rest)[m..])
  {
    hide Scan;
    if m == |r| {
      TakeDrop(r, rest);
    } else {
      LastBlank(r, rest);
      ScanBlank(rest);
      Associates(r[..m], [SPACE], Scan(rest));
    }
  }

  lemma ScanOpened(t: Bytes)
    requires Opens(t)
    ensures Scan(t) == ScannedComment(t) + Scan(t[|ScannedComment(t)|..])
    ensures Ahead(t) == ScannedComment(t) + Ahead(t[|ScannedComment(t)|..])
    ensures Closes(t) == Closes(t[|ScannedComment(t)|..])
  {
  }

  /** The main loop goes on where a comment was consumed. */
  lemma MainResumes(t: Bytes, m: nat)
    requires t != [] && t[0] == SLASH && Resumes(t, m)
    ensures 1 <= m <= |t| && Scan(t) == Commented(t)[..m] + Scan(Commented(t)[m..])
  {
    if Opens(t) {
      hide ScannedComment, Ahead, Closes, Scan, Opens;
      ScanOpened(t);
      ResumesAt(ScannedComment(t), t[|ScannedComment(t)|..], m);
    }
  }

  lemma AheadNewline(t: Bytes)
    requires t != [] && IsNL(t[0])
    ensures Ahead(t) == [t[0]] + Ahead(t[1..]) && Closes(t) == Closes(t[1..])
  {
  }

  lemma OneMore(r: Bytes, rest: Bytes)
    requires rest != []
    ensures (r + rest)[..|r| + 1] == r + [rest[0]] && (r + rest)[|r| + 1..] == rest[1..]
  {
  }

  lemma AheadPastLine(t: Bytes, r: Bytes)
    requires |r| < |t| && IsNL(t[|r|]) && Ahead(t) == r + Ahead(t[|r|..]) && Closes(t) == Closes(t[|r|..])
    ensures var now, q := r + t[|r|..], |r| + 1;
      now[q..] == t[q..] && Ahead(t) == now[..q] + Ahead(t[q..]) && Closes(t) == Closes(t[q..])
  {
    var rest := t[|r|..];
    AheadNewline(rest);
    hide Ahead, Closes;
    OneMore(r, rest);
    DropDrop(t, |r|, 1);
    Associates(r, [rest[0]], Ahead(rest[1..]));
  }

  lemma AheadPastBlock(t: Bytes, r: Bytes)
    requires |r| <= |t| && Ahead(t) == r + Ahead(t[|r|..])
    ensures var now := r + t[|r|..]; now[|r|..] == t[|r|..] && Ahead(t) == now[..|r|] + Ahead(t[|r|..])
  {
    hide Ahead;
    TakeDrop(r, t[|r|..]);
  }

  lemma AfterLine(t: Bytes)
    requires Opens(t) && t[1] == SLASH && |ScannedComment(t)| < |t|
    ensures IsNL(t[|ScannedComment(t)|])
  {
    LineStops(t[2..]);
  }

  lemma AheadStray(t: Bytes)
    requires t != [] && t[0] == SLASH && !Opens(t)
    ensures var q := if 1 < |t| then 2 else |t|; Ahead(t) == t[..q] + Ahead(t[q..]) && Closes(t) == Closes(t[q..])
  {
    if |t| == 1 {
      assert t[..1] == t && t[1..] == [];
    } else {
      assert t[..2] == [SLASH, t[1]];
    }
  }

  /** So does the look-ahead, one byte further on. */
  lemma AheadResumes(t: Bytes, m: nat)
    requires t != [] && t[0] == SLASH && Resumes(t, m)
    ensures var q := if m < |t| then m + 1 else |t|; var now := Commented(t);
      && now[q..] == t[q..] && Ahead(t) == now[..q] + Ahead(t[q..]) && Closes(t) == Closes(t[q..])
  {
    hide ScannedComment, Ahead, Closes, Scan;
    if Opens(t) {
      var r := ScannedComment(t);
      ScanOpened(t);
      assert Commented(t) == r + t[|r|..];
      if m == |r| && m < |t| {
        AfterLine(t);
        hide Resumes, Commented, Opens;
        AheadPastLine(t, r);
      } else {
        assert (if m < |t| then m + 1 else |t|) == |r|;
        hide Resumes, Commented, Opens;
        AheadPastBlock(t, r);
      }
    } else {
      AheadStray(t);
    }
  }

  lemma {:induction false} LineStops(u: Bytes)
    ensures LineEnd(u) < |u| ==> IsNL(u[LineEnd(u)])
  {
    if u != [] && !IsNL(u[0]) {
      LineStops(u[1..]);
    }
  }

  lemma NoString()
    ensures StringEnd([]) == 0
  {
  }

  lemma StringEndAt(s: Bytes, i: nat)
    requires i < |s|
    ensures s[i] == QUOTE ==> StringEnd(s[i..]) == 1
    ensures s[i] == BACKSLASH ==> StringEnd(s[i..]) == if i + 1 == |s| then 1 else 2 + StringEnd(s[i + 2..])
    ensures s[i] != QUOTE && s[i] != BACKSLASH ==> StringEnd(s[i..]) == 1 + StringEnd(s[i + 1..])
  {
    DropDrop(s, i, 1);
    if i + 1 < |s| {
      DropDrop(s, i, 2);
    }
  }

  /** Skips a string; an unclosed one may leave the position past the end. */
  method SkipString(s: array<byte>, start: nat) returns (i: nat)
    requires start < s.Length
    ensures start < i && Cut(i, s.Length) == start + 1 + StringEnd(s[start + 1..])
  {
    hide StringEnd;
    i := start + 1;
    NoString();
    while i < s.Length
      invariant start < i <= s.Length + 1
      invariant var m := Cut(i, s.Length); StringEnd(s[start + 1..]) == m - (start + 1) + StringEnd(s[m..])
    {
      StringEndAt(s[..], i);
      if s[i] == QUOTE {
        return i + 1;
      } else if s[i] == BACKSLASH {
        i := i + 1;
      }
      i := i + 1;
    }
  }

  /** The look-ahead, which started at from, goes past a slash at q and the comment it may open. */
  lemma AheadGoesOn(before: Bytes, now: Bytes, from: nat, q: nat, m: nat)
    requires from <= q < |before| && |now| == |before| && before[q] == SLASH && Resumes(before[q..], m)
    requires now == before[..q] + Commented(before[q..])
    ensures var q' := if q + m < |before| then q + m + 1 else |before|;
      && q < q' && now[..q] == before[..q] && now[q'..] == before[q'..]
      && before[from..q] + Ahead(before[q..]) == now[from..q'] + Ahead(now[q'..])
      && Closes(before[q..]) == Closes(now[q'..])
  {
    hide Ahead, Closes, ScannedComment;
    var t := before[q..];
    AheadResumes(t, m);
    var q' := if q + m < |before| then q + m + 1 else |before|;
    hide Commented, Resumes;
    var c := Commented(t);
    DropDrop(before, q, q' - q);
    TakeDrop(before[..q], c);
    DropDrop(now, q, q' - q);
    assert now[from..q'] == before[from..q] + c[..q' - q];
    Associates(before[from..q], c[..q' - q], Ahead(t[q' - q..]));
  }

  lemma AheadStops(t: Bytes)
    requires t == [] || (t[0] != SLASH && !IsWS(t[0]))
    ensures Ahead(t) == [] && Closes(t) == (t != [] && IsClose(t[0]))
  {
  }

  lemma AheadBlank(before: Bytes, from: nat, q: nat)
    requires from <= q < |before| && IsWS(before[q])
    ensures before[from..q] + Ahead(before[q..]) == before[from..q + 1] + Ahead(before[q + 1..])
    ensures Closes(before[q..]) == Closes(before[q + 1..])
  {
    DropDrop(before, q, 1);
    assert before[from..q + 1] == before[from..q] + [before[q]];
    Associates(before[from..q], [before[q]], Ahead(before[q + 1..]));
  }

  /** A look-ahead from the comma at j has come to q: was is what it started on. */
  ghost predicate Looking(was: Bytes, now: Bytes, j: nat, q: nat) {
    && j < q <= |was| && |now| == |was| && now[..j + 1] == was[..j + 1] && now[q..] == was[q..]
    && Ahead(was[j + 1..]) == now[j + 1..q] + Ahead(now[q..]) && Closes(was[j + 1..]) == Closes(now[q..])
  }

  lemma LookingOn(was: Bytes, now: Bytes, j: nat, q: nat)
    requires Looking(was, now, j, q) && q < |was| && IsWS(now[q])
    ensures Looking(was, now, j, q + 1)
  {
    hide Ahead, Closes;
    AheadBlank(now, j + 1, q);
    DropDrop(now, q, 1);
    DropDrop(was, q, 1);
  }

  lemma LookingPast(was: Bytes, before: Bytes, now: Bytes, j: nat, q: nat, m: nat)
    requires Looking(was, before, j, q) && q < |was| && before[q] == SLASH && Resumes(before[q..], m)
    requires now == before[..q] + Commented(before[q..])
    ensures q + m <= |was| && Looking(was, now, j, Cut(q + m + 1, |was|))
  {
    hide Ahead, Closes, Commented, Resumes;
    AheadGoesOn(before, now, j + 1, q, m);
    ResumesInside(before[q..], m);
    var q' := Cut(q + m + 1, |was|);
    assert now[q'..] == before[q'..] == was[q'..] by {
      DropDrop(before, q, q' - q);
      DropDrop(was, q, q' - q);
    }
    assert now[..j + 1] == now[..q][..j + 1] && before[..j + 1] == before[..q][..j + 1];
  }

  lemma ResumesInside(t: Bytes, m: nat)
    requires t != [] && Resumes(t, m)
    ensures m <= |t|
  {
  }

  /** What is left of the bytes from a comma on. */
  function Comma(u: Bytes): Bytes {
    [CommaUnless(Closes(u))] + Ahead(u) + u[|Ahead(u)|..]
  }

  lemma LookingStops(was: Bytes, now: Bytes, j: nat, q: nat)
    requires Looking(was, now, j, q) && now[j] == COMMA && (q == |was| || (now[q] != SLASH && !IsWS(now[q])))
    ensures q == j + 1 + |Ahead(was[j + 1..])|
    ensures now[j := CommaUnless(q < |was| && IsClose(now[q]))] == was[..j] + Comma(was[j + 1..])
  {
    AheadStops(now[q..]);
    hide Ahead, Closes;
    var a, c := Ahead(was[j + 1..]), CommaUnless(q < |was| && IsClose(now[q]));
    assert a == now[j + 1..q] + [] == now[j + 1..q];
    DropDrop(was, j + 1, |a|);
    TakeTake(was, now, j);
    Assembled(now, j, q, c);
  }

  lemma TakeTake(was: Bytes, now: Bytes, j: nat)
    requires j < |was| == |now| && now[..j + 1] == was[..j + 1]
    ensures now[..j] == was[..j]
  {
    assert now[..j] == now[..j + 1][..j] && was[..j] == was[..j + 1][..j];
  }

  lemma Assembled(now: Bytes, j: nat, q: nat, c: byte)
    requires j < q <= |now|
    ensures now[j := c] == now[..j] + ([c] + now[j + 1..q] + now[q..])
  {
    var r := now[..j] + ([c] + now[j + 1..q] + now[q..]);
    assert |r| == |now|;
    forall k | 0 <= k < |now| ensures now[j := c][k] == r[k] {
      if k >= q {
        assert r[k] == now[q..][k - q];
      } else if k > j {
        assert r[k] == now[j + 1..q][k - (j + 1)];
      }
    }
  }

  /** The look-ahead after a comma at j: blanks it when a closing brace or bracket follows. */
  method AfterComma(s: array<byte>, j: nat) returns (i: nat)
    requires j < s.Length && s[j] == COMMA
    modifies s
    ensures j < i && Cut(i, s.Length) == j + 1 + |Ahead(old(s[j + 1..]))|
    ensures s[..] == old(s[..j]) + Comma(old(s[j + 1..]))
  {
    hide Ahead, Closes, Comma, Commented, Resumes, Looking;
    ghost var was := s[..];
    i := j;
    LookingStarts(was, j);
    while true
      invariant j <= i <= s.Length + 1 && s[j] == COMMA && Looking(was, s[..], j, Cut(i + 1, s.Length))
      decreases s.Length - i
    {
      i := i + 1;
      if i >= s.Length {
        LookingStops(was, s[..], j, s.Length);
        assert s[..][j := COMMA] == s[..];
        break;
      } else if IsClose(s[i]) {
        LookingStops(was, s[..], j, i);
        s[j] := SPACE;
        break;
      } else if s[i] == SLASH {
        ghost var before, q := s[..], i;
        i := ConsumeComment(s, i + 1);
        LookingPast(was, before, s[..], j, q, Cut(i, s.Length) - q);
        assert s[j] == before[..q][j];
      } else if !IsWS(s[i]) {
        LookingStops(was, s[..], j, i);
        assert s[..][j := COMMA] == s[..];
        break;
      } else {
        LookingOn(was, s[..], j, i);
      }
    }
  }

  lemma LookingStarts(was: Bytes, j: nat)
    requires j < |was|
    ensures Looking(was, was, j, j + 1)
  {
    hide Ahead, Closes;
  }

  /** The main loop has come to m: was is what it started on. */
  ghost predicate Scanning(was: Bytes, now: Bytes, m: nat) {
    m <= |was| && |now| == |was| && Scan(was) == now[..m] + Scan(now[m..])
  }

  /** The bytes from i on became c, of which m are done with. */
  lemma ScanningOn(was: Bytes, before: Bytes, now: Bytes, i: nat, c: Bytes, m: nat)
    requires Scanning(was, before, i) && |c| == |was| - i && m <= |c| && now == before[..i] + c
    requires Scan(before[i..]) == c[..m] + Scan(c[m..])
    ensures Scanning(was, now, i + m)
  {
    hide Scan;
    TakeDrop(before[..i], c);
    DropDrop(now, i, m);
    assert now[..i + m] == before[..i] + c[..m];
    Associates(before[..i], c[..m], Scan(c[m..]));
  }

  lemma ScanningSame(was: Bytes, now: Bytes, i: nat, m: nat)
    requires Scanning(was, now, i) && i + m <= |was| && Scan(now[i..]) == now[i..][..m] + Scan(now[i..][m..])
    ensures Scanning(was, now, i + m)
  {
    hide Scan;
    assert now == now[..i] + now[i..];
    ScanningOn(was, now, now, i, now[i..], m);
  }

  lemma ScanningString(was: Bytes, now: Bytes, i: nat)
    requires Scanning(was, now, i) && i < |was| && now[i] == QUOTE
    ensures i + 1 + StringEnd(now[i + 1..]) <= |was| && Scanning(was, now, i + 1 + StringEnd(now[i + 1..]))
  {
    hide StringEnd;
    DropDrop(now, i, 1);
    ScanningSame(was, now, i, 1 + StringEnd(now[i + 1..]));
  }

  lemma ScanningOther(was: Bytes, now: Bytes, i: nat)
    requires Scanning(was, now, i) && i < |was| && now[i] !in {QUOTE, SLASH, COMMA}
    ensures Scanning(was, now, i + 1)
  {
    assert now[i..][..1] == [now[i]];
    ScanningSame(was, now, i, 1);
  }

  lemma ScanningComment(was: Bytes, before: Bytes, now: Bytes, i: nat, m: nat)
    requires Scanning(was, before, i) && i < |was| && before[i] == SLASH && Resumes(before[i..], m)
    requires now == before[..i] + Commented(before[i..])
    ensures i + m <= |was| && Scanning(was, now, i + m)
  {
    hide Scan, Commented, Resumes;
    MainResumes(before[i..], m);
    ScanningOn(was, before, now, i, Commented(before[i..]), m);
  }

  lemma ScanComma(t: Bytes)
    requires t != [] && t[0] == COMMA
    ensures var n := 1 + |Ahead(t[1..])|; Scan(t) == Comma(t[1..])[..n] + Scan(Comma(t[1..])[n..])
  {
    hide Ahead, Closes;
    var a, x := Ahead(t[1..]), CommaUnless(Closes(t[1..]));
    DropDrop(t, 1, |a|);
    TakeDrop([x] + a, t[1 + |a|..]);
  }

  lemma ScanningComma(was: Bytes, before: Bytes, now: Bytes, i: nat)
    requires Scanning(was, before, i) && i < |was| && before[i] == COMMA
    requires now == before[..i] + Comma(before[i + 1..])
    ensures var m := i + 1 + |Ahead(before[i + 1..])|; m <= |was| && Scanning(was, now, m)
  {
    hide Scan, Ahead, Closes;
    DropDrop(before, i, 1);
    ScanComma(before[i..]);
    ScanningOn(was, before, now, i, Comma(before[i + 1..]), 1 + |Ahead(before[i + 1..])|);
  }

  /** Cleans the buffer in place. */
  method Prep(s: array<byte>)
    modifies s
    ensures s[..] == Scan(old(s[..]))
  {
    hide Scan, Ahead, Closes, Comma, Commented, Resumes, Scanning, StringEnd;
    ghost var was := s[..];
    var i := 0;
    ScanningStarts(was);
    while i < s.Length
      invariant 0 <= i && Scanning(was, s[..], Cut(i, s.Length))
      decreases s.Length - i
    {
      ghost var before := s[..];
      if s[i] == QUOTE {
        ScanningString(was, before, i);
        i := SkipString(s, i);
      } else if s[i] == SLASH {
        ghost var p := i;
        i := ConsumeComment(s, i + 1);
        ScanningComment(was, before, s[..], p, Cut(i, s.Length) - p);
      } else if s[i] == COMMA {
        ghost var p := i;
        i := AfterComma(s, i);
        ScanningComma(was, before, s[..], p);
      } else {
        ScanningOther(was, before, i);
        i := i + 1;
      }
    }
    ScanningEnds(was, s[..]);
  }

  lemma ScanningStarts(was: Bytes)
    ensures Scanning(was, was, 0)
  {
    hide Scan;
    assert was[0..] == was && was[..0] == [];
  }

  lemma ScanningEnds(was: Bytes, now: Bytes)
    requires Scanning(was, now, |was|)
    ensures now == Scan(was)
  {
    assert now[..|was|] == now && now[|was|..] == [];
  }
}
