/** When the scan is the lexer it is meant to be, and what the parser behind it then reads. */
module Json5Lexer {
  import opened Json5

  // ---------------------------------------------------------------- when the scan is the lexer

  /** Every star the scan reads in a block comment, short of the closing one, has a blank after it. */
  predicate GoodBlock(u: Bytes) {
    if u == [] then true
    else if u[0] != STAR then GoodBlock(u[1..])
    else if |u| == 1 || u[1] == SLASH then true
    else u[1] == SPACE && GoodBlock(u[2..])
  }

  predicate GoodComment(t: Bytes)
    requires Opens(t)
  {
    t[1] == SLASH || GoodBlock(t[2..])
  }

  /** The look-ahead gets to a closing brace or bracket over a slash that opens no comment. */
  predicate Overreaches(t: Bytes, slashed: bool)
    decreases |t|
  {
    if t == [] then false
    else if Opens(t) then Overreaches(t[CommentEnd(t)..], slashed)
    else if t[0] == SLASH then |t| > 1 && Overreaches(t[2..], true)
    else if IsWS(t[0]) then Overreaches(t[1..], slashed)
    else slashed && IsClose(t[0])
  }

  /** The look-ahead passes over a quote right after a slash that opens no comment. */
  predicate Derails(t: Bytes)
    decreases |t|
  {
    if t == [] then false
    else if Opens(t) then Derails(t[CommentEnd(t)..])
    else if t[0] == SLASH then |t| > 1 && (t[1] == QUOTE || Derails(t[2..]))
    else IsWS(t[0]) && Derails(t[1..])
  }

  /** Every block comment is good and no comma's look-ahead overreaches. */
  predicate Faithful(t: Bytes)
    decreases |t|
  {
    if t == [] then true
    else if t[0] == QUOTE then Faithful(t[1 + StringEnd(t[1..])..])
    else if Opens(t) then GoodComment(t) && Faithful(t[CommentEnd(t)..])
    else (t[0] == COMMA ==> !Overreaches(t[1..], false)) && Faithful(t[1..])
  }

  /** No comma's look-ahead derails. */
  predicate OnTrack(t: Bytes)
    decreases |t|
  {
    if t == [] then true
    else if t[0] == QUOTE then OnTrack(t[1 + StringEnd(t[1..])..])
    else if Opens(t) then OnTrack(t[CommentEnd(t)..])
    else (t[0] == COMMA ==> !Derails(t[1..])) && OnTrack(t[1..])
  }

  lemma {:induction false} GoodBlockIsBlank(u: Bytes)
    requires GoodBlock(u)
    ensures ScannedBlock(u) == Blanks(BlockEnd(u))
  {
    if u != [] {
      if u[0] != STAR {
        GoodBlockIsBlank(u[1..]);
      } else if |u| > 1 && u[1] != SLASH {
        GoodBlockIsBlank(u[2..]);
        assert BlockEnd(u) == 1 + BlockEnd(u[1..]) && u[1..][1..] == u[2..];
        assert BlockEnd(u[1..]) == 1 + BlockEnd(u[2..]);
      }
    }
  }

  /** A block comment the scan does not blank as it should shows in the output. */
  lemma {:induction false} BadBlockShows(u: Bytes, y: Bytes, z: Bytes)
    requires ScannedBlock(u) + y == Blanks(BlockEnd(u)) + z
    ensures GoodBlock(u)
  {
    if u != [] {
      var l, r := ScannedBlock(u) + y, Blanks(BlockEnd(u)) + z;
      if u[0] != STAR {
        assert l[1..] == ScannedBlock(u[1..]) + y && r[1..] == Blanks(BlockEnd(u[1..])) + z;
        BadBlockShows(u[1..], y, z);
      } else if |u| > 1 && u[1] != SLASH {
        assert BlockEnd(u) == 1 + BlockEnd(u[1..]) && u[1..][1..] == u[2..];
        assert BlockEnd(u[1..]) >= 1;
        assert l[1] == u[1] && r[1] == SPACE;
        assert BlockEnd(u[1..]) == 1 + BlockEnd(u[2..]);
        assert l[2..] == ScannedBlock(u[2..]) + y && r[2..] == Blanks(BlockEnd(u[2..])) + z;
        BadBlockShows(u[2..], y, z);
      }
    }
  }

  lemma GoodCommentIsBlank(t: Bytes)
    requires Opens(t) && GoodComment(t)
    ensures ScannedComment(t) == Blanks(CommentEnd(t))
  {
    if t[1] == STAR {
      GoodBlockIsBlank(t[2..]);
    }
  }

  lemma BadCommentShows(t: Bytes, y: Bytes, z: Bytes)
    requires Opens(t) && ScannedComment(t) + y == Blanks(CommentEnd(t)) + z
    ensures GoodComment(t) && y == z
  {
    if t[1] == STAR {
      var l, r := ScannedComment(t) + y, Blanks(CommentEnd(t)) + z;
      assert l[2..] == ScannedBlock(t[2..]) + y && r[2..] == Blanks(BlockEnd(t[2..])) + z;
      BadBlockShows(t[2..], y, z);
    }
    GoodCommentIsBlank(t);
    SameTail(Blanks(CommentEnd(t)), y, z);
  }

  lemma {:induction false} SlashedOverreachesMore(t: Bytes)
    requires Overreaches(t, false)
    ensures Overreaches(t, true)
    decreases |t|
  {
    if Opens(t) {
      SlashedOverreachesMore(t[CommentEnd(t)..]);
    } else if t[0] != SLASH && IsWS(t[0]) {
      SlashedOverreachesMore(t[1..]);
    }
  }

  /** The output from here when the scan gets here in the look-ahead of a comma. */
  function Passed(t: Bytes): Bytes {
    Ahead(t) + Scan(t[|Ahead(t)|..])
  }

  lemma PassedOver(t: Bytes, a: Bytes)
    requires |a| <= |t| && Ahead(t) == a + Ahead(t[|a|..])
    ensures Passed(t) == a + Passed(t[|a|..])
  {
    hide Ahead, Scan;
    var b := Ahead(t[|a|..]);
    DropDrop(t, |a|, |b|);
    Associates(a, b, Scan(t[|a| + |b|..]));
    assert |Ahead(t)| == |a| + |b|;
    assert Passed(t[|a|..]) == b + Scan(t[|a| + |b|..]);
    assert Passed(t) == (a + b) + Scan(t[|a| + |b|..]);
  }

  lemma PassedHere(t: Bytes)
    requires Ahead(t) == []
    ensures Passed(t) == Scan(t)
  {
    assert t[0..] == t;
  }

  /** A slash that opens no comment, and a byte after it that opens no string. */
  ghost predicate Stray(t: Bytes) {
    |t| > 1 && t[0] == SLASH && !Opens(t) && t[1] != QUOTE
  }

  lemma StrayPassed(t: Bytes)
    requires Stray(t)
    ensures Passed(t) == [SLASH, t[1]] + Passed(t[2..]) && Closes(t) == Closes(t[2..])
  {
    hide Scan;
    PassedOver(t, [SLASH, t[1]]);
  }

  lemma StrayCleaned(t: Bytes)
    requires Stray(t)
    ensures Clean(t) == [SLASH, if t[1] == COMMA then CommaUnless(Trailing(t[2..])) else t[1]] + Clean(t[2..])
      && !Trailing(t)
  {
    var v := t[2..];
    DropDrop(t, 1, 1);
    var y := if t[1] == COMMA then CommaUnless(Trailing(v)) else t[1];
    assert Clean(t) == [SLASH] + Clean(t[1..]) && Clean(t[1..]) == [y] + Clean(v);
    hide Clean;
    Associates([SLASH], [y], Clean(v));
    assert [SLASH] + [y] == [SLASH, y];
  }

  lemma StrayJudged(t: Bytes)
    requires Stray(t)
    ensures var x, v := t[1], t[2..];
      && Derails(t) == Derails(v) && OnTrack(t) == (OnTrack(v) && (x == COMMA ==> !Derails(v)))
      && Overreaches(t, false) == Overreaches(t, true) == Overreaches(v, true)
      && Faithful(t) == (Faithful(v) && (x == COMMA ==> !Overreaches(v, false)))
  {
    DropDrop(t, 1, 1);
    assert OnTrack(t) == OnTrack(t[1..]) && Faithful(t) == Faithful(t[1..]);
  }

  lemma {:induction false} Agrees(t: Bytes)
    requires OnTrack(t) && Faithful(t)
    ensures Scan(t) == Clean(t)
    decreases |t|, 0
  {
    hide Trailing, Closes, Ahead, StringEnd, CommentEnd, ScannedComment, GoodComment, Overreaches, Derails;
    if t != [] {
      if t[0] == QUOTE {
        Agrees(t[1 + StringEnd(t[1..])..]);
      } else if Opens(t) {
        GoodCommentIsBlank(t);
        Agrees(t[CommentEnd(t)..]);
      } else if t[0] == COMMA {
        AheadAgrees(t[1..], false);
        DropDrop(t, 1, |Ahead(t[1..])|);
        Associates([CommaUnless(Closes(t[1..]))], Ahead(t[1..]), Scan(t[1..][|Ahead(t[1..])|..]));
      } else {
        Agrees(t[1..]);
      }
    }
  }

  lemma {:induction false} AheadAgrees(t: Bytes, slashed: bool)
    requires OnTrack(t) && !Derails(t) && Faithful(t) && !Overreaches(t, slashed)
    ensures Passed(t) == Clean(t)
    ensures Closes(t) == (!slashed && Trailing(t))
    decreases |t|, 1
  {
    hide StringEnd, CommentEnd, ScannedComment, GoodComment;
    if t == [] {
    } else if Opens(t) {
      GoodCommentIsBlank(t);
      PassedOver(t, ScannedComment(t));
      AheadAgrees(t[CommentEnd(t)..], slashed);
    } else if t[0] == SLASH && |t| > 1 {
      var v := t[2..];
      StrayPassed(t);
      StrayCleaned(t);
      StrayJudged(t);
      hide OnTrack, Faithful, Clean, Passed, Derails, Trailing, Closes, Overreaches, Ahead;
      if t[1] == COMMA {
        AheadAgrees(v, false);
      }
      AheadAgrees(v, true);
    } else if t[0] != SLASH && IsWS(t[0]) {
      PassedOver(t, [t[0]]);
      AheadAgrees(t[1..], slashed);
    } else if t[0] == SLASH {
      assert t[1..] == [];
    } else {
      PassedHere(t);
      Agrees(t);
    }
  }

  lemma {:induction false} Shows(t: Bytes)
    requires OnTrack(t) && Scan(t) == Clean(t)
    ensures Faithful(t)
    decreases |t|, 0
  {
    hide Trailing, Closes, Ahead, StringEnd, CommentEnd, ScannedComment, GoodComment, Overreaches, Derails;
    if t != [] {
      if t[0] == QUOTE {
        var n := 1 + StringEnd(t[1..]);
        SameTail(t[..n], Scan(t[n..]), Clean(t[n..]));
        Shows(t[n..]);
      } else if Opens(t) {
        BadCommentShows(t, Scan(t[|ScannedComment(t)|..]), Clean(t[CommentEnd(t)..]));
        GoodCommentIsBlank(t);
        Shows(t[CommentEnd(t)..]);
      } else if t[0] == COMMA {
        var u := t[1..];
        DropDrop(t, 1, |Ahead(u)|);
        Associates([CommaUnless(Closes(u))], Ahead(u), Scan(u[|Ahead(u)|..]));
        HeadTail(CommaUnless(Closes(u)), Passed(u));
        HeadTail(CommaUnless(Trailing(u)), Clean(u));
        AheadShows(u, false);
      } else {
        HeadTail(t[0], Scan(t[1..]));
        HeadTail(t[0], Clean(t[1..]));
        Shows(t[1..]);
      }
    }
  }

  lemma {:induction false} AheadShows(t: Bytes, slashed: bool)
    requires OnTrack(t) && !Derails(t) && Passed(t) == Clean(t)
    requires Closes(t) == (!slashed && Trailing(t))
    ensures Faithful(t) && !Overreaches(t, slashed)
    decreases |t|, 1
  {
    hide StringEnd, CommentEnd, ScannedComment, GoodComment;
    if t == [] {
    } else if Opens(t) {
      var s := ScannedComment(t);
      PassedOver(t, s);
      BadCommentShows(t, Passed(t[|s|..]), Clean(t[CommentEnd(t)..]));
      GoodCommentIsBlank(t);
      AheadShows(t[CommentEnd(t)..], slashed);
    } else if t[0] == SLASH && |t| > 1 {
      var x, v := t[1], t[2..];
      var y := if x == COMMA then CommaUnless(Trailing(v)) else x;
      StrayPassed(t);
      StrayCleaned(t);
      StrayJudged(t);
      hide OnTrack, Faithful, Clean, Passed, Derails, Trailing, Closes, Overreaches, Ahead;
      TwoHeads(SLASH, x, Passed(v));
      TwoHeads(SLASH, y, Clean(v));
      AheadShows(v, true);
      if Overreaches(v, false) {
        SlashedOverreachesMore(v);
      }
    } else if t[0] != SLASH && IsWS(t[0]) {
      PassedOver(t, [t[0]]);
      HeadTail(t[0], Passed(t[1..]));
      HeadTail(t[0], Clean(t[1..]));
      AheadShows(t[1..], slashed);
    } else if t[0] == SLASH {
      assert t[1..] == [];
    } else {
      PassedHere(t);
      Shows(t);
    }
  }

  /** On every input where no look-ahead derails: the scan computes what the lexer does if and only if
      every star it reads in a block comment, short of the closing one, has a blank after it, and no
      look-ahead gets to a closing brace over a slash that opens no comment. */
  lemma ScanIsLexer(t: Bytes)
    requires OnTrack(t)
    ensures Scan(t) == Clean(t) <==> Faithful(t)
  {
    if Faithful(t) {
      Agrees(t);
    } else if Scan(t) == Clean(t) {
      Shows(t);
    }
  }

  // ---------------------------------------------------------------- plain inputs

  predicate StarFree(u: Bytes) {
    if u == [] then true
    else if |u| >= 2 && u[0] == STAR && u[1] == SLASH then true
    else u[0] != STAR && StarFree(u[1..])
  }

  /** Every slash outside strings opens a comment, and no block comment holds a star before its end. */
  predicate Plain(t: Bytes)
    decreases |t|
  {
    if t == [] then true
    else if t[0] == QUOTE then Plain(t[1 + StringEnd(t[1..])..])
    else if Opens(t) then (t[1] == STAR ==> StarFree(t[2..])) && Plain(t[CommentEnd(t)..])
    else t[0] != SLASH && Plain(t[1..])
  }

  lemma {:induction false} StarFreeIsGood(u: Bytes)
    requires StarFree(u)
    ensures GoodBlock(u)
  {
    if u != [] && u[0] != STAR {
      StarFreeIsGood(u[1..]);
    }
  }

  lemma {:induction false} PlainLooksAhead(t: Bytes)
    requires Plain(t)
    ensures !Overreaches(t, false) && !Derails(t)
    decreases |t|
  {
    if t != [] {
      if Opens(t) {
        PlainLooksAhead(t[CommentEnd(t)..]);
      } else if IsWS(t[0]) {
        PlainLooksAhead(t[1..]);
      }
    }
  }

  lemma {:induction false} PlainIsFaithful(t: Bytes)
    requires Plain(t)
    ensures Faithful(t) && OnTrack(t)
    decreases |t|
  {
    if t != [] {
      if t[0] == QUOTE {
        PlainIsFaithful(t[1 + StringEnd(t[1..])..]);
      } else if Opens(t) {
        if t[1] == STAR {
          StarFreeIsGood(t[2..]);
        }
        PlainIsFaithful(t[CommentEnd(t)..]);
      } else {
        if t[0] == COMMA {
          PlainLooksAhead(t[1..]);
        }
        PlainIsFaithful(t[1..]);
      }
    }
  }

  // ---------------------------------------------------------------- what the parser then reads

  /** What a JSON parser reads: strings, and every other byte that is not white space, where they stand. */
  datatype Token = Str(at: nat, text: Bytes) | Sym(at: nat, b: byte)

  /** Strict JSON: no comments, commas as they come. */
  function Strict(t: Bytes, at: nat): seq<Token>
    decreases |t|
  {
    if t == [] then []
    else if t[0] == QUOTE then
      var n := 1 + StringEnd(t[1..]);
      [Str(at, t[..n])] + Strict(t[n..], at + n)
    else if IsWS(t[0]) then Strict(t[1..], at + 1)
    else [Sym(at, t[0])] + Strict(t[1..], at + 1)
  }

  /** The input as its author means it: comments and trailing commas count for nothing. */
  function Meant(t: Bytes, at: nat): seq<Token>
    decreases |t|
  {
    if t == [] then []
    else if t[0] == QUOTE then
      var n := 1 + StringEnd(t[1..]);
      [Str(at, t[..n])] + Meant(t[n..], at + n)
    else if Opens(t) then Meant(t[CommentEnd(t)..], at + CommentEnd(t))
    else if IsWS(t[0]) || (t[0] == COMMA && Trailing(t[1..])) then Meant(t[1..], at + 1)
    else [Sym(at, t[0])] + Meant(t[1..], at + 1)
  }

  lemma {:induction false} StrictBlanks(n: nat, r: Bytes, at: nat)
    ensures Strict(Blanks(n) + r, at) == Strict(r, at + n)
    decreases n
  {
    if n == 0 {
      assert Blanks(0) + r == r;
    } else {
      assert (Blanks(n) + r)[1..] == Blanks(n - 1) + r;
      StrictBlanks(n - 1, r, at + 1);
    }
  }

  /** A closed string ends where it did whatever follows; an open one ends with the input. */
  lemma {:induction false} StringEndsThere(u: Bytes, r: Bytes)
    requires StringEnd(u) == |u| ==> r == []
    ensures StringEnd(u[..StringEnd(u)] + r) == StringEnd(u)
  {
    var n := StringEnd(u);
    var v := u[..n] + r;
    if u != [] && u[0] != QUOTE {
      if u[0] == BACKSLASH {
        if |u| > 1 {
          StringEndsThere(u[2..], r);
          assert v[2..] == u[2..][..n - 2] + r;
        }
      } else {
        StringEndsThere(u[1..], r);
        assert v[1..] == u[1..][..n - 1] + r;
      }
    } else if u == [] {
      assert v == [];
    }
  }

  lemma StrictString(t: Bytes, n: nat, r: Bytes, at: nat)
    requires t != [] && t[0] == QUOTE && n == 1 + StringEnd(t[1..]) && |r| == |t| - n
    ensures Strict(t[..n] + r, at) == [Str(at, t[..n])] + Strict(r, at + n)
  {
    var v := t[..n] + r;
    StringEndsThere(t[1..], r);
    assert v[1..] == t[1..][..n - 1] + r;
    TakeDrop(t[..n], r);
  }

  lemma StrictByte(x: byte, r: Bytes, at: nat)
    requires x != QUOTE
    ensures IsWS(x) ==> Strict([x] + r, at) == Strict(r, at + 1)
    ensures !IsWS(x) ==> Strict([x] + r, at) == [Sym(at, x)] + Strict(r, at + 1)
  {
    HeadTail(x, r);
  }

  lemma CleanKeepsByte(t: Bytes, at: nat)
    requires t != [] && t[0] != QUOTE && !Opens(t) && Strict(Clean(t[1..]), at + 1) == Meant(t[1..], at + 1)
    ensures Strict(Clean(t), at) == Meant(t, at)
  {
    hide Strict, Trailing, StringEnd, CommentEnd, Opens;
    if t[0] == COMMA {
      var x := CommaUnless(Trailing(t[1..]));
      StrictByte(x, Clean(t[1..]), at);
    } else {
      StrictByte(t[0], Clean(t[1..]), at);
    }
  }

  lemma CleanKeepsString(t: Bytes, n: nat, at: nat)
    requires t != [] && t[0] == QUOTE && n == 1 + StringEnd(t[1..])
    requires Strict(Clean(t[n..]), at + n) == Meant(t[n..], at + n)
    ensures Strict(Clean(t), at) == Meant(t, at)
  {
    hide Strict, StringEnd, Trailing, CommentEnd, Opens;
    assert Clean(t) == t[..n] + Clean(t[n..]);
    assert Meant(t, at) == [Str(at, t[..n])] + Meant(t[n..], at + n);
    hide Clean, Meant;
    StrictString(t, n, Clean(t[n..]), at);
  }

  lemma CleanDropsComment(t: Bytes, at: nat)
    requires Opens(t) && Strict(Clean(t[CommentEnd(t)..]), at + CommentEnd(t))
      == Meant(t[CommentEnd(t)..], at + CommentEnd(t))
    ensures Strict(Clean(t), at) == Meant(t, at)
  {
    hide Strict, StringEnd, Trailing, CommentEnd;
    StrictBlanks(CommentEnd(t), Clean(t[CommentEnd(t)..]), at);
  }

  /** A strict parser reads from the cleaned bytes what the author means, at the same positions. */
  lemma {:induction false} CleanKeepsMeaning(t: Bytes, at: nat)
    ensures Strict(Clean(t), at) == Meant(t, at)
    decreases |t|
  {
    if t == [] {
      NothingRead(at);
    } else {
      hide Strict, Clean, Meant, Opens, StringEnd;
      if t[0] == QUOTE {
        var n := 1 + StringEnd(t[1..]);
        CleanKeepsMeaning(t[n..], at + n);
        CleanKeepsString(t, n, at);
      } else if Opens(t) {
        CleanKeepsMeaning(t[CommentEnd(t)..], at + CommentEnd(t));
        CleanDropsComment(t, at);
      } else {
        CleanKeepsMeaning(t[1..], at + 1);
        CleanKeepsByte(t, at);
      }
    }
  }

  lemma NothingRead(at: nat)
    ensures Strict([], at) == []
  {
  }

  /** On plain inputs, and on every other one the scan is faithful to, the parser behind it reads what
      the author means. */
  lemma ScanKeepsMeaning(t: Bytes)
    requires OnTrack(t) && Faithful(t)
    ensures Strict(Scan(t), 0) == Meant(t, 0)
  {
    ScanIsLexer(t);
    CleanKeepsMeaning(t, 0);
  }

  // ---------------------------------------------------------------- every input

  lemma {:induction false} BlockKeptOrBlank(u: Bytes, k: nat)
    requires k < |ScannedBlock(u)|
    ensures ScannedBlock(u)[k] in {u[k], SPACE}
  {
    if u[0] != STAR {
      if k > 0 {
        BlockKeptOrBlank(u[1..], k - 1);
      }
    } else if |u| > 1 && u[1] != SLASH && k > 1 {
      BlockKeptOrBlank(u[2..], k - 2);
    }
  }

  lemma CommentKeptOrBlank(t: Bytes, k: nat)
    requires Opens(t) && k < |ScannedComment(t)|
    ensures ScannedComment(t)[k] in {t[k], SPACE}
  {
    if t[1] == STAR && k > 1 {
      BlockKeptOrBlank(t[2..], k - 2);
    }
  }

  lemma {:induction false} AheadKeptOrBlank(t: Bytes, k: nat)
    requires k < |Ahead(t)|
    ensures Ahead(t)[k] in {t[k], SPACE}
    decreases |t|
  {
    if Opens(t) {
      var n := |ScannedComment(t)|;
      if k < n {
        CommentKeptOrBlank(t, k);
      } else {
        AheadKeptOrBlank(t[n..], k - n);
      }
    } else if t[0] == SLASH {
      if k > 1 {
        AheadKeptOrBlank(t[2..], k - 2);
      }
    } else if k > 0 {
      AheadKeptOrBlank(t[1..], k - 1);
    }
  }

  lemma Picks(a: Bytes, b: Bytes, c: Bytes, k: nat)
    requires k < |a| + |b| + |c|
    ensures (a + b + c)[k] == if k < |a| then a[k] else if k < |a| + |b| then b[k - |a|] else c[k - |a| - |b|]
  {
  }

  /** On every input at all: the length is kept and each byte is kept or blanked. */
  lemma {:induction false} KeptOrBlank(t: Bytes, k: nat)
    requires k < |t|
    ensures |Scan(t)| == |t| && Scan(t)[k] in {t[k], SPACE}
    decreases |t|
  {
    hide Ahead, Closes, ScannedComment, StringEnd;
    if t[0] == QUOTE {
      var n := 1 + StringEnd(t[1..]);
      if k >= n {
        KeptOrBlank(t[n..], k - n);
      }
    } else if Opens(t) {
      var n := |ScannedComment(t)|;
      if k < n {
        CommentKeptOrBlank(t, k);
      } else {
        KeptOrBlank(t[n..], k - n);
      }
    } else if t[0] == COMMA {
      var a := Ahead(t[1..]);
      Picks([CommaUnless(Closes(t[1..]))], a, Scan(t[1 + |a|..]), k);
      if 0 < k <= |a| {
        AheadKeptOrBlank(t[1..], k - 1);
      } else if k > |a| {
        KeptOrBlank(t[1 + |a|..], k - 1 - |a|);
      }
    } else if k > 0 {
      KeptOrBlank(t[1..], k - 1);
    }
  }

  /** No comment and no trailing comma. */
  predicate Settled(t: Bytes)
    decreases |t|
  {
    if t == [] then true
    else if t[0] == QUOTE then Settled(t[1 + StringEnd(t[1..])..])
    else !Opens(t) && (t[0] == COMMA ==> !Trailing(t[1..])) && Settled(t[1..])
  }

  lemma {:induction false} CleanLeavesSettled(t: Bytes)
    ensures Clean(t) == t <==> Settled(t)
    decreases |t|
  {
    if t == [] {
    } else if t[0] == QUOTE {
      var n := 1 + StringEnd(t[1..]);
      assert t == t[..n] + t[n..];
      TakeDrop(t[..n], Clean(t[n..]));
      CleanLeavesSettled(t[n..]);
    } else if Opens(t) {
      assert Clean(t)[0] == SPACE;
    } else {
      var x := if t[0] == COMMA then CommaUnless(Trailing(t[1..])) else t[0];
      assert t == [t[0]] + t[1..];
      HeadTail(x, Clean(t[1..]));
      CleanLeavesSettled(t[1..]);
    }
  }

  /** A plain input comes through unchanged if and only if it has no comment and no trailing comma. */
  lemma ScanLeavesSettled(t: Bytes)
    requires Plain(t)
    ensures Scan(t) == Clean(t) && (Scan(t) == t <==> Settled(t))
  {
    PlainIsFaithful(t);
    ScanIsLexer(t);
    CleanLeavesSettled(t);
  }

  // ---------------------------------------------------------------- where it goes wrong

  /** A closing star after another star is passed over, and what follows the comment is lost with it. */
  lemma StarsHideTheEnd(x: byte)
    requires x != STAR && x != SPACE && x != QUOTE && x != COMMA
    ensures var t := [SLASH, STAR, STAR, STAR, SLASH, x];
      OnTrack(t) && !Faithful(t) && Scan(t)[5] == SPACE && Clean(t)[5] == x
  {
    var t := [SLASH, STAR, STAR, STAR, SLASH, x];
    assert t[2..] == [STAR, STAR, SLASH, x] && t[2..][1..] == [STAR, SLASH, x] && t[2..][2..] == [SLASH, x];
    assert [SLASH, x][1..] == [x] && [x][1..] == [];
    assert ScannedBlock([x]) == [SPACE] + ScannedBlock([]) == [SPACE];
    assert ScannedBlock([SLASH, x]) == [SPACE] + [SPACE] == [SPACE, SPACE];
    assert ScannedBlock(t[2..]) == [SPACE, STAR] + [SPACE, SPACE] == [SPACE, STAR, SPACE, SPACE];
    assert ScannedComment(t) == [SPACE, SPACE] + [SPACE, STAR, SPACE, SPACE];
    assert t[6..] == [];
    assert BlockEnd(t[2..]) == 1 + BlockEnd([STAR, SLASH, x]) == 3;
    assert CommentEnd(t) == 5 && t[5..] == [x];
    assert Clean([x]) == [x] + Clean([]) == [x];
    assert OnTrack([x]) && OnTrack(t[5..]);
  }

  /** A comma is lost over a slash that opens no comment, also one whose next byte opens a string. */
  lemma StrayLosesComma(x: byte)
    requires x != SLASH && x != STAR && x != COMMA && !IsClose(x) && !IsWS(x)
    ensures var t := [COMMA, SLASH, x, BRACE];
      && Scan(t)[0] == SPACE && Clean(t)[0] == COMMA
      && (OnTrack(t) <==> x != QUOTE)
  {
    var t := [COMMA, SLASH, x, BRACE];
    assert t[1..] == [SLASH, x, BRACE] && t[1..][2..] == [BRACE] && t[1..][1..] == [x, BRACE]
      && [x, BRACE][1..] == [BRACE];
    assert Closes([BRACE]) && Closes(t[1..]);
    assert [BRACE][1..] == [];
    assert !Derails([BRACE]) && (Derails(t[1..]) <==> x == QUOTE);
    assert OnTrack([BRACE]) && OnTrack([x, BRACE]) == (x == QUOTE || OnTrack([BRACE]));
  }
}
