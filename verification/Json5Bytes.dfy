/** What becomes of each byte, with the bytes as numbers. */
module Json5Bytes {
  import opened Json5
  import opened Json5Lexer

  /** Length of a string after its opening quote. */
  function TextEnd(u: Bytes): (n: nat)
    ensures n <= |u|
  {
    if u == [] then 0
    else if u[0] == 34 then 1
    else if u[0] == 92 then (if |u| == 1 then 1 else 2 + TextEnd(u[2..]))
    else 1 + TextEnd(u[1..])
  }

  function ToLineEnd(u: Bytes): (n: nat)
    ensures n <= |u|
  {
    if u == [] || u[0] == 10 || u[0] == 13 then 0 else 1 + ToLineEnd(u[1..])
  }

  function ToStarSlash(u: Bytes): (n: nat)
    ensures n <= |u|
  {
    if u == [] then 0 else if |u| >= 2 && u[0] == 42 && u[1] == 47 then 2 else 1 + ToStarSlash(u[1..])
  }

  /** Length of the comment here, 0 when there is none. */
  function RemarkEnd(t: Bytes): (n: nat)
    ensures n <= |t|
  {
    if |t| < 2 || t[0] != 47 then 0
    else if t[1] == 47 then 2 + ToLineEnd(t[2..])
    else if t[1] == 42 then 2 + ToStarSlash(t[2..])
    else 0
  }

  /** The first byte after blanks and comments, or -1 at the end. */
  function NextByte(t: Bytes): int
    decreases |t|
  {
    if t == [] then -1
    else if RemarkEnd(t) > 0 then NextByte(t[RemarkEnd(t)..])
    else if t[0] == 32 || t[0] == 9 || t[0] == 10 || t[0] == 13 then NextByte(t[1..])
    else t[0] as int
  }

  datatype Kind = Text | Remark | Code

  /** Whether the byte at k stands in a string, in a comment, or outside both. */
  function KindAt(t: Bytes, k: nat): Kind
    requires k < |t|
    decreases |t|
  {
    if t[0] == 34 then
      var n := 1 + TextEnd(t[1..]);
      if k < n then Text else KindAt(t[n..], k - n)
    else if RemarkEnd(t) > 0 then
      var n := RemarkEnd(t);
      if k < n then Remark else KindAt(t[n..], k - n)
    else if k == 0 then Code else KindAt(t[1..], k - 1)
  }

  /** What should become of it: strings stay, comments are blanked, and so is a comma outside both when
      the next byte that is neither blank nor comment is a closing brace or bracket. */
  function Becomes(t: Bytes, k: nat): byte
    requires k < |t|
  {
    match KindAt(t, k)
    case Text => t[k]
    case Remark => 32
    case Code => if t[k] == 44 && (NextByte(t[k + 1..]) == 93 || NextByte(t[k + 1..]) == 125) then 32 else t[k]
  }

  lemma {:induction false} TextEndIs(u: Bytes)
    ensures TextEnd(u) == StringEnd(u)
  {
    if u != [] && u[0] != 34 {
      if u[0] != 92 {
        TextEndIs(u[1..]);
      } else if |u| > 1 {
        TextEndIs(u[2..]);
      }
    }
  }

  lemma {:induction false} LineEndIs(u: Bytes)
    ensures ToLineEnd(u) == LineEnd(u)
  {
    if u != [] {
      LineEndIs(u[1..]);
    }
  }

  lemma {:induction false} BlockEndIs(u: Bytes)
    ensures ToStarSlash(u) == BlockEnd(u)
  {
    if u != [] {
      BlockEndIs(u[1..]);
    }
  }

  lemma RemarkIs(t: Bytes)
    ensures RemarkEnd(t) > 0 <==> Opens(t)
    ensures Opens(t) ==> RemarkEnd(t) == CommentEnd(t)
  {
    if Opens(t) {
      LineEndIs(t[2..]);
      BlockEndIs(t[2..]);
    }
  }

  lemma {:induction false} TrailingIs(t: Bytes)
    ensures Trailing(t) <==> NextByte(t) == 93 || NextByte(t) == 125
    decreases |t|
  {
    RemarkIs(t);
    if t != [] {
      if Opens(t) {
        TrailingIs(t[CommentEnd(t)..]);
      } else if IsWS(t[0]) {
        TrailingIs(t[1..]);
      }
    }
  }

  lemma BecomesAfter(t: Bytes, n: nat, k: nat)
    requires n <= k < |t| && KindAt(t, k) == KindAt(t[n..], k - n)
    ensures Becomes(t, k) == Becomes(t[n..], k - n)
  {
    DropDrop(t, n, k - n + 1);
  }

  /** The first n bytes come out as they are; the byte at k is one of them and right, or the walk gets to
      it behind them. */
  ghost predicate Piece(t: Bytes, n: nat, out: Bytes, k: nat)
    requires k < |t|
  {
    && 1 <= n == |out| <= |t| && Clean(t) == out + Clean(t[n..])
    && if k < n then out[k] == Becomes(t, k) else KindAt(t, k) == KindAt(t[n..], k - n)
  }

  lemma TextPiece(t: Bytes, k: nat)
    requires k < |t| && t[0] == 34
    ensures Piece(t, 1 + StringEnd(t[1..]), t[..1 + StringEnd(t[1..])], k)
  {
    TextEndIs(t[1..]);
    hide NextByte, RemarkEnd, TextEnd, StringEnd, CommentEnd, Trailing;
  }

  lemma RemarkPiece(t: Bytes, k: nat)
    requires k < |t| && Opens(t)
    ensures Piece(t, CommentEnd(t), Blanks(CommentEnd(t)), k)
  {
    RemarkIs(t);
    hide NextByte, RemarkEnd, TextEnd, StringEnd, CommentEnd, Trailing;
  }

  lemma CodePiece(t: Bytes, k: nat)
    requires k < |t| && t[0] != 34 && !Opens(t)
    ensures Piece(t, 1, [if t[0] == COMMA then CommaUnless(Trailing(t[1..])) else t[0]], k)
  {
    RemarkIs(t);
    TrailingIs(t[1..]);
    hide NextByte, RemarkEnd, TextEnd, StringEnd, CommentEnd, Trailing;
  }

  lemma Behind(all: Bytes, out: Bytes, rest: Bytes, k: nat)
    requires all == out + rest && k < |all|
    ensures all[k] == if k < |out| then out[k] else rest[k - |out|]
  {
  }

  /** The lexer, byte by byte, on every input. */
  lemma {:induction false} CleanBytes(t: Bytes, k: nat)
    requires k < |t|
    ensures Clean(t)[k] == Becomes(t, k)
    decreases |t|
  {
    hide Clean, Becomes, KindAt, Trailing, StringEnd, CommentEnd;
    var n, out := 1, [if t[0] == COMMA then CommaUnless(Trailing(t[1..])) else t[0]];
    if t[0] == 34 {
      n, out := 1 + StringEnd(t[1..]), t[..1 + StringEnd(t[1..])];
      TextPiece(t, k);
    } else if Opens(t) {
      n, out := CommentEnd(t), Blanks(CommentEnd(t));
      RemarkPiece(t, k);
    } else {
      CodePiece(t, k);
    }
    Behind(Clean(t), out, Clean(t[n..]), k);
    if k >= n {
      CleanBytes(t[n..], k - n);
      BecomesAfter(t, n, k);
    }
  }

  /** So does the scan, on plain inputs and on all others it is faithful to. */
  lemma ScanBytes(t: Bytes, k: nat)
    requires OnTrack(t) && Faithful(t) && k < |t|
    ensures Scan(t)[k] == Becomes(t, k)
  {
    ScanIsLexer(t);
    CleanBytes(t, k);
  }

  /** Every slash outside strings opens a comment, and no block comment holds a star before its end. */
  predicate Tidy(t: Bytes)
    decreases |t|
  {
    if t == [] then true
    else if t[0] == 34 then Tidy(t[1 + TextEnd(t[1..])..])
    else if RemarkEnd(t) > 0 then
      var n := RemarkEnd(t);
      (t[1] == 42 ==> forall i :: 2 <= i < n && t[i] == 42 ==> i == n - 2 && t[n - 1] == 47) && Tidy(t[n..])
    else t[0] != 47 && Tidy(t[1..])
  }

  /** A star before the end of a block comment, in numbers. */
  lemma {:induction false} StarFreeIs(u: Bytes)
    requires forall i :: 0 <= i < ToStarSlash(u) && u[i] == 42 ==> i == ToStarSlash(u) - 2 && u[i + 1] == 47
    ensures StarFree(u)
  {
    if u != [] && !(|u| >= 2 && u[0] == 42 && u[1] == 47) {
      var n := ToStarSlash(u);
      assert n == 1 + ToStarSlash(u[1..]);
      forall i | 0 <= i < ToStarSlash(u[1..]) && u[1..][i] == 42
        ensures i == ToStarSlash(u[1..]) - 2 && u[1..][i + 1] == 47
      {
        assert u[i + 1] == 42;
      }
      StarFreeIs(u[1..]);
    }
  }

  lemma {:induction false} TidyIsPlain(t: Bytes)
    requires Tidy(t)
    ensures Plain(t)
    decreases |t|
  {
    RemarkIs(t);
    if t != [] {
      if t[0] == 34 {
        TextEndIs(t[1..]);
        TidyIsPlain(t[1 + TextEnd(t[1..])..]);
      } else if Opens(t) {
        if t[1] == 42 {
          var n := RemarkEnd(t);
          forall i | 0 <= i < n - 2 && t[2..][i] == 42 ensures i == n - 4 && t[2..][i + 1] == 47 {
            assert t[i + 2] == 42;
          }
          StarFreeIs(t[2..]);
        }
        TidyIsPlain(t[CommentEnd(t)..]);
      } else {
        TidyIsPlain(t[1..]);
      }
    }
  }

  /** Whatever an author writes without stray slashes and inner stars comes out as it should, byte by byte. */
  lemma TidyBytes(t: Bytes, k: nat)
    requires Tidy(t) && k < |t|
    ensures Scan(t)[k] == Becomes(t, k)
  {
    TidyIsPlain(t);
    PlainIsFaithful(t);
    ScanBytes(t, k);
  }
}
