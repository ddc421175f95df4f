/** The comment and trailing-comma stripper in front of the JSON parser (common/json5/json5.go): an
    in-place scan over the bytes, and the lexer it is meant to be. */
module Json5 {

  newtype byte = x: int | 0 <= x < 256

  const TAB: byte := 9
  const NEWLINE: byte := 10
  const RETURN: byte := 13
  const SPACE: byte := 32
  const QUOTE: byte := 34
  const STAR: byte := 42
  const COMMA: byte := 44
  const SLASH: byte := 47
  const BRACKET: byte := 93
  const BACKSLASH: byte := 92
  const BRACE: byte := 125

  type Bytes = seq<byte>

  predicate IsNL(c: byte) {
    c == NEWLINE || c == RETURN
  }

  predicate IsWS(c: byte) {
    c == SPACE || c == TAB || IsNL(c)
  }

  predicate IsClose(c: byte) {
    c == BRACE || c == BRACKET
  }

  function Blanks(n: nat): (r: Bytes)
    ensures |r| == n
  {
    seq(n, _ => SPACE)
  }

  // ---------------------------------------------------------------- the intended lexer

  /** Length of a string after its opening quote, closing quote included. */
  function StringEnd(u: Bytes): (n: nat)
    ensures n <= |u|
  {
    if u == [] then 0
    else if u[0] == QUOTE then 1
    else if u[0] == BACKSLASH then (if |u| == 1 then 1 else 2 + StringEnd(u[2..]))
    else 1 + StringEnd(u[1..])
  }

  function LineEnd(u: Bytes): (n: nat)
    ensures n <= |u|
  {
    if u == [] || IsNL(u[0]) then 0 else 1 + LineEnd(u[1..])
  }

  /** Length of a block comment after its opening, up to and with the first star and slash. */
  function BlockEnd(u: Bytes): (n: nat)
    ensures n <= |u|
  {
    if u == [] then 0
    else if |u| >= 2 && u[0] == STAR && u[1] == SLASH then 2
    else 1 + BlockEnd(u[1..])
  }

  predicate Opens(t: Bytes) {
    |t| >= 2 && t[0] == SLASH && (t[1] == SLASH || t[1] == STAR)
  }

  function CommentEnd(t: Bytes): (n: nat)
    requires Opens(t)
    ensures 2 <= n <= |t|
  {
    if t[1] == SLASH then 2 + LineEnd(t[2..]) else 2 + BlockEnd(t[2..])
  }

  /** Only blanks and comments stand before the next closing brace or bracket. */
  predicate Trailing(t: Bytes)
    decreases |t|
  {
    if t == [] then false
    else if IsClose(t[0]) then true
    else if Opens(t) then Trailing(t[CommentEnd(t)..])
    else IsWS(t[0]) && Trailing(t[1..])
  }

  function CommaUnless(blank: bool): byte {
    if blank then SPACE else COMMA
  }

  /** Strings as they are; comments and trailing commas blanked; every other byte as it is. */
  function Clean(t: Bytes): (r: Bytes)
    ensures |r| == |t|
    decreases |t|
  {
    if t == [] then []
    else if t[0] == QUOTE then t[..1 + StringEnd(t[1..])] + Clean(t[1 + StringEnd(t[1..])..])
    else if Opens(t) then Blanks(CommentEnd(t)) + Clean(t[CommentEnd(t)..])
    else if t[0] == COMMA then [CommaUnless(Trailing(t[1..]))] + Clean(t[1..])
    else [t[0]] + Clean(t[1..])
  }

  // ---------------------------------------------------------------- what the scan does

  /** What the scan makes of a block comment after its opening: the byte after a star that does not close
      it is passed over unread and kept. */
  function ScannedBlock(u: Bytes): (r: Bytes)
    ensures |r| <= |u|
  {
    if u == [] then []
    else if u[0] != STAR then [SPACE] + ScannedBlock(u[1..])
    else if |u| == 1 then [SPACE]
    else if u[1] == SLASH then [SPACE, SPACE]
    else [SPACE, u[1]] + ScannedBlock(u[2..])
  }

  function ScannedComment(t: Bytes): (r: Bytes)
    requires Opens(t)
    ensures 2 <= |r| <= |t|
  {
    if t[1] == SLASH then Blanks(2 + LineEnd(t[2..])) else [SPACE, SPACE] + ScannedBlock(t[2..])
  }

  /** The bytes the scan passes over after a comma, as it leaves them. A slash that opens no comment is
      passed over together with the byte after it. */
  function Ahead(t: Bytes): (r: Bytes)
    ensures |r| <= |t|
    decreases |t|
  {
    if t == [] then []
    else if Opens(t) then ScannedComment(t) + Ahead(t[|ScannedComment(t)|..])
    else if t[0] == SLASH then (if |t| == 1 then t else [SLASH, t[1]] + Ahead(t[2..]))
    else if IsWS(t[0]) then [t[0]] + Ahead(t[1..])
    else []
  }

  /** Whether it then meets a closing brace or bracket. */
  predicate Closes(t: Bytes)
    decreases |t|
  {
    if t == [] then false
    else if Opens(t) then Closes(t[|ScannedComment(t)|..])
    else if t[0] == SLASH then |t| > 1 && Closes(t[2..])
    else if IsWS(t[0]) then Closes(t[1..])
    else IsClose(t[0])
  }

  /** The whole scan. */
  function Scan(t: Bytes): (r: Bytes)
    ensures |r| == |t|
    decreases |t|
  {
    if t == [] then []
    else if t[0] == QUOTE then t[..1 + StringEnd(t[1..])] + Scan(t[1 + StringEnd(t[1..])..])
    else if Opens(t) then ScannedComment(t) + Scan(t[|ScannedComment(t)|..])
    else if t[0] == COMMA then [CommaUnless(Closes(t[1..]))] + Ahead(t[1..]) + Scan(t[1 + |Ahead(t[1..])|..])
    else [t[0]] + Scan(t[1..])
  }

  // ---------------------------------------------------------------- byte sequences

  lemma DropDrop(t: Bytes, m: nat, n: nat)
    requires m + n <= |t|
    ensures t[m..][n..] == t[m + n..]
  {
  }

  lemma Associates(a: Bytes, b: Bytes, c: Bytes)
    ensures (a + b) + c == a + (b + c)
  {
  }

  lemma HeadTail(x: byte, y: Bytes)
    ensures ([x] + y)[0] == x && ([x] + y)[1..] == y
  {
  }

  lemma TwoHeads(x: byte, z: byte, y: Bytes)
    ensures ([x, z] + y)[0] == x && ([x, z] + y)[1] == z && ([x, z] + y)[2..] == y
  {
  }

  lemma SameTail(a: Bytes, y: Bytes, z: Bytes)
    requires a + y == a + z
    ensures y == z
  {
    assert y == (a + y)[|a|..] && z == (a + z)[|a|..];
  }

  lemma TakeDrop(r: Bytes, rest: Bytes)
    ensures (r + rest)[..|r|] == r && (r + rest)[|r|..] == rest
  {
  }
}
