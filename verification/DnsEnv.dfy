/** The DNS settings textarea, one KEY=VALUE a line (parseFlatDNSEnv of node/cert_resolve.go). */
module DnsEnv {
  import opened Base

  const NL := '\n'
  const EQ := '='

  // ---------------------------------------------------------------- the string library

  /** White space as strings.TrimSpace sees it. */
  predicate IsSpace(c: char) {
    || '\t' <= c <= '\r'
    || c in {' ', '\U{85}', '\U{A0}', '\U{1680}', '\U{2028}', '\U{2029}', '\U{202F}', '\U{205F}', '\U{3000}'}
    || '\U{2000}' <= c <= '\U{200A}'
  }

  predicate Blank(s: string) {
    forall i :: 0 <= i < |s| ==> IsSpace(s[i])
  }

  function TrimLeft(s: string): string {
    if s != [] && IsSpace(s[0]) then TrimLeft(s[1..]) else s
  }

  function TrimRight(s: string): string {
    if s != [] && IsSpace(s[|s| - 1]) then TrimRight(s[..|s| - 1]) else s
  }

  function TrimSpace(s: string): string {
    TrimRight(TrimLeft(s))
  }

  function Split(s: string): (lines: seq<string>)
    ensures lines != []
  {
    if s == [] then [[]]
    else
      var rest := Split(s[1..]);
      if s[0] == NL then [[]] + rest else [[s[0]] + rest[0]] + rest[1..]
  }

  /** The first place of '=', or the length when there is none. */
  function FirstEq(s: string): (i: nat)
    ensures i <= |s| && (i < |s| ==> s[i] == EQ) && forall j :: 0 <= j < i ==> s[j] != EQ
  {
    if s == [] || s[0] == EQ then 0 else 1 + FirstEq(s[1..])
  }

  /** The same, -1 when there is none. */
  function IndexEq(s: string): int {
    if FirstEq(s) < |s| then FirstEq(s) else -1
  }

  // ---------------------------------------------------------------- the parser

  /** One line: its key and value, or None when it is skipped. */
  function Entry(raw: string): Option<(string, string)> {
    var line := TrimSpace(raw);
    if line == "" then None
    else
      var eq := IndexEq(line);
      if eq <= 0 then None
      else
        var key, val := TrimSpace(line[..eq]), TrimSpace(line[eq + 1..]);
        if key == "" then None else Some((key, val))
  }

  function Entries(lines: seq<string>): map<string, string> {
    if lines == [] then map[]
    else
      var before, e := Entries(lines[..|lines| - 1]), Entry(lines[|lines| - 1]);
      if e.None? then before else before[e.value.0 := e.value.1]
  }

  function Parsed(raw: string): Option<map<string, string>> {
    var m := Entries(Split(raw));
    if m == map[] then None else Some(m)
  }

  lemma NoEntries()
    ensures Entries([]) == map[]
  {
  }

  lemma OneMoreEntry(lines: seq<string>, i: nat)
    requires i < |lines|
    ensures var before, e := Entries(lines[..i]), Entry(lines[i]);
      Entries(lines[..i + 1]) == if e.None? then before else before[e.value.0 := e.value.1]
  {
    assert lines[..i + 1][..i] == lines[..i];
  }

  method ParseFlatDNSEnv(raw: string) returns (out: Option<map<string, string>>)
    ensures out == Parsed(raw)
  {
    hide TrimSpace, IsSpace, FirstEq, Split, Entries;
    if TrimSpace(raw) == "" {
      BlankHasNone(raw);
      return None;
    }
    var m: map<string, string> := map[];
    var lines := Split(raw);
    NoEntries();
    for i := 0 to |lines|
      invariant m == Entries(lines[..i])
    {
      OneMoreEntry(lines, i);
      var line := TrimSpace(lines[i]);
      if line == "" {
        continue;
      }
      var eq := IndexEq(line);
      if eq <= 0 {
        continue;
      }
      var key := TrimSpace(line[..eq]);
      var val := TrimSpace(line[eq + 1..]);
      if key == "" {
        continue;
      }
      m := m[key := val];
    }
    assert lines[..|lines|] == lines;
    if |m| == 0 {
      return None;
    }
    return Some(m);
  }

  // ---------------------------------------------------------------- what a text is made of

  /** A line of the text: a pair with any white space around its key and its value, or one to skip. */
  datatype Item =
    | Pair(key: string, value: string, before: string, afterKey: string, beforeValue: string, after: string)
    | Noise(text: string)

  /** No white space at either end. */
  predicate Solid(s: string) {
    s == [] || (!IsSpace(s[0]) && !IsSpace(s[|s| - 1]))
  }

  /** Nothing but white space before the first '=', or no '='. */
  predicate Skipped(s: string) {
    FirstEq(s) == |s| || Blank(s[..FirstEq(s)])
  }

  predicate Valid(it: Item) {
    match it
    case Pair(key, value, a, b, c, d) =>
      && key != [] && EQ !in key && NL !in key && Solid(key) && NL !in value && Solid(value)
      && Blank(a) && Blank(b) && Blank(c) && Blank(d) && NL !in a && NL !in b && NL !in c && NL !in d
    case Noise(text) => NL !in text && Skipped(text)
  }

  function Line(it: Item): string {
    match it
    case Pair(key, value, a, b, c, d) => a + key + b + [EQ] + c + value + d
    case Noise(text) => text
  }

  function Lines(items: seq<Item>): seq<string> {
    seq(|items|, i requires 0 <= i < |items| => Line(items[i]))
  }

  function Join(lines: seq<string>): string {
    if lines == [] then [] else if |lines| == 1 then lines[0] else lines[0] + [NL] + Join(lines[1..])
  }

  /** The map the author means: the last line wins for a key. */
  function Meant(items: seq<Item>): map<string, string> {
    if items == [] then map[]
    else
      var before, last := Meant(items[..|items| - 1]), items[|items| - 1];
      if last.Pair? then before[last.key := last.value] else before
  }

  ghost predicate AllValid(items: seq<Item>) {
    forall it :: it in items ==> Valid(it)
  }

  // ---------------------------------------------------------------- trimming

  lemma {:induction false} TrimLeftPad(p: string, s: string)
    requires Blank(p)
    ensures TrimLeft(p + s) == TrimLeft(s)
  {
    if p == [] {
      assert p + s == s;
    } else {
      assert (p + s)[1..] == p[1..] + s;
      TrimLeftPad(p[1..], s);
    }
  }

  lemma {:induction false} TrimRightPad(s: string, q: string)
    requires Blank(q)
    ensures TrimRight(s + q) == TrimRight(s)
  {
    if q == [] {
      assert s + q == s;
    } else {
      assert (s + q)[..|s + q| - 1] == s + q[..|q| - 1];
      TrimRightPad(s, q[..|q| - 1]);
    }
  }

  /** White space around a solid text is what trimming takes off. */
  lemma TrimPadded(p: string, s: string, q: string)
    requires Blank(p) && Blank(q) && Solid(s)
    ensures TrimSpace(p + s + q) == s
  {
    assert p + s + q == p + (s + q);
    TrimLeftPad(p, s + q);
    if s == [] {
      assert s + q == q + [];
      TrimLeftPad(q, []);
    } else {
      assert (s + q)[0] == s[0];
      TrimRightPad(s, q);
    }
  }

  lemma {:induction false} LeftPad(s: string) returns (p: string)
    ensures Blank(p) && s == p + TrimLeft(s) && (TrimLeft(s) == [] || !IsSpace(TrimLeft(s)[0]))
  {
    if s != [] && IsSpace(s[0]) {
      p := LeftPad(s[1..]);
      p := [s[0]] + p;
      assert s == [s[0]] + s[1..];
    } else {
      p := [];
      assert s == [] + s;
    }
  }

  lemma {:induction false} RightPad(s: string) returns (q: string)
    ensures Blank(q) && s == TrimRight(s) + q && (TrimRight(s) == [] || !IsSpace(TrimRight(s)[|TrimRight(s)| - 1]))
  {
    if s != [] && IsSpace(s[|s| - 1]) {
      q := RightPad(s[..|s| - 1]);
      q := q + [s[|s| - 1]];
      assert s == s[..|s| - 1] + [s[|s| - 1]];
    } else {
      q := [];
      assert s == s + [];
    }
  }

  /** Trimming leaves the solid middle of a text. */
  lemma TrimTakesPads(s: string) returns (p: string, q: string)
    ensures Blank(p) && Blank(q) && s == p + TrimSpace(s) + q && Solid(TrimSpace(s))
  {
    p := LeftPad(s);
    var t := TrimLeft(s);
    q := RightPad(t);
    var u := TrimRight(t);
    assert u != [] ==> u[0] == t[0];
  }

  // ---------------------------------------------------------------- lines

  lemma {:induction false} SplitJoin(lines: seq<string>)
    requires lines != [] && forall l :: l in lines ==> NL !in l
    ensures Split(Join(lines)) == lines
    decreases |lines|, |lines[0]|
  {
    var l, rest := lines[0], lines[1..];
    if l == [] {
      if rest != [] {
        assert Join(lines)[1..] == Join(rest);
        assert lines == [[]] + rest;
        SplitJoin(rest);
      } else {
        assert lines == [[]];
      }
    } else {
      var shorter := [l[1..]] + rest;
      assert shorter[1..] == rest && l == [l[0]] + l[1..];
      assert Join(lines) == [l[0]] + Join(shorter);
      forall x | x in shorter ensures NL !in x {
        assert x == l[1..] || x in rest;
        assert l in lines;
      }
      SplitJoin(shorter);
      assert [l[0]] + shorter[0] == l;
      assert lines == [l] + rest;
    }
  }

  lemma {:induction false} JoinSplit(s: string)
    ensures Join(Split(s)) == s && forall l :: l in Split(s) ==> NL !in l
  {
    if s != [] {
      JoinSplit(s[1..]);
      var rest := Split(s[1..]);
      var lines := Split(s);
      if s[0] == NL {
        assert lines[1..] == rest;
        assert Join(lines) == [] + [NL] + Join(rest);
      } else {
        assert lines[1..] == rest[1..];
        assert Join(lines) == [s[0]] + Join(rest);
      }
      forall l | l in lines ensures NL !in l {
        if s[0] != NL && l == lines[0] {
          assert l == [s[0]] + rest[0];
        }
      }
    }
  }

  // ---------------------------------------------------------------- one line

  lemma FirstEqIs(s: string, t: string)
    requires EQ !in s
    ensures FirstEq(s + [EQ] + t) == |s|
  {
    var u := s + [EQ] + t;
    assert u[|s|] == EQ;
    assert forall j :: 0 <= j < |s| ==> u[j] == s[j];
  }

  /** A solid line with a key before the '=' and a value, maybe padded, behind it. */
  lemma SolidEntry(left: string, right: string, key: string, val: string)
    requires left != [] && EQ !in left && TrimSpace(left) == key && key != [] && TrimSpace(right) == val
    requires TrimSpace(left + [EQ] + right) == left + [EQ] + right
    ensures forall raw :: TrimSpace(raw) == left + [EQ] + right ==> Entry(raw) == Some((key, val))
  {
    var line := left + [EQ] + right;
    FirstEqIs(left, right);
    assert line[..|left|] == left && line[|left| + 1..] == right;
  }

  lemma LeadsWith(key: string, rest: string)
    requires key != []
    ensures (key + rest)[0] == key[0]
  {
  }

  lemma EndsWith(front: string, tail: string)
    requires tail != []
    ensures (front + tail) != [] && (front + tail)[|front + tail| - 1] == tail[|tail| - 1]
  {
  }

  lemma PairSolid(key: string, b: string, right: string)
    requires key != [] && Solid(key) && (right == [] || !IsSpace(right[|right| - 1]))
    ensures Solid(key + b + [EQ] + right)
  {
    assert key + b + [EQ] + right == key + (b + [EQ] + right);
    LeadsWith(key, b + [EQ] + right);
    if right == [] {
      assert key + b + [EQ] + right == key + b + [EQ];
      EndsWith(key + b, [EQ]);
    } else {
      EndsWith(key + b + [EQ], right);
    }
  }

  /** A pair is read as it was written. */
  lemma PairEntry(it: Item)
    requires Valid(it) && it.Pair?
    ensures Entry(Line(it)) == Some((it.key, it.value))
  {
    hide TrimLeft, TrimRight, IsSpace, FirstEq;
    var key, val, b := it.key, it.value, it.afterKey;
    var right := if val == [] then [] else it.beforeValue + val;
    var tail := if val == [] then it.beforeValue + it.after else it.after;
    Gathered(it, right, tail);
    if val != [] {
      EndsWith(it.beforeValue, val);
    }
    PairSolid(key, b, right);
    var line := key + b + [EQ] + right;
    TrimPadded(it.before, line, tail);
    TrimPadded([], line, []);
    assert [] + line + [] == line;
    TrimPadded([], key, b);
    assert [] + key + b == key + b;
    TrimPadded(if val == [] then [] else it.beforeValue, val, []);
    assert (if val == [] then [] else it.beforeValue) + val + [] == right;
    NoEq(b);
    hide Entry;
    SolidEntry(key + b, right, key, val);
  }

  lemma NoEq(b: string)
    requires Blank(b)
    ensures EQ !in b
  {
  }

  lemma Gathered(it: Item, right: string, tail: string)
    requires it.Pair?
    requires right + tail == it.beforeValue + it.value + it.after
    ensures Line(it) == it.before + (it.key + it.afterKey + [EQ] + right) + tail
  {
    var l := it.before + it.key + it.afterKey + [EQ];
    assert Line(it) == l + (it.beforeValue + it.value + it.after);
    assert l + (right + tail) == it.before + (it.key + it.afterKey + [EQ] + right) + tail;
  }

  lemma FirstEqIn(p: string, t: string, q: string)
    requires Blank(p) && Blank(q)
    ensures FirstEq(p + t + q) == if FirstEq(t) < |t| then |p| + FirstEq(t) else |p + t + q|
  {
    var s, i := p + t + q, FirstEq(t);
    forall j | 0 <= j < |s| ensures s[j] == EQ ==> |p| + i <= j < |p| + |t| {
      if j < |p| {
        assert s[j] == p[j];
      } else if j < |p| + |t| {
        assert s[j] == t[j - |p|];
      } else {
        assert s[j] == q[j - |p| - |t|];
      }
    }
    if i < |t| {
      assert s[|p| + i] == EQ;
    }
  }

  lemma TrimmedAway(s: string)
    requires s != [] && TrimSpace(s) == []
    ensures IsSpace(s[0])
  {
    var p, q := TrimTakesPads(s);
    assert s == p + q;
  }

  /** A line is skipped exactly when it is one of those that name no key. */
  lemma SkippedEntry(raw: string)
    ensures Entry(raw).None? <==> Skipped(raw)
  {
    var p, q := TrimTakesPads(raw);
    var t := TrimSpace(raw);
    FirstEqIn(p, t, q);
    if t == [] {
      assert raw == p + q;
      assert Blank(raw);
    } else {
      var i := FirstEq(t);
      assert raw[|p|] == t[0];
      if 0 < i < |t| {
        if TrimSpace(t[..i]) == [] {
          TrimmedAway(t[..i]);
        }
        assert raw[..|p| + i][|p|] == t[0];
      } else if i == 0 {
        assert raw[..|p|] == p;
      }
    }
  }

  /** A line that names a key splits at its first '=', white space at its ends aside. */
  lemma Halves(raw: string) returns (p: string, left: string, right: string, q: string)
    requires !Skipped(raw)
    ensures Blank(p) && Blank(q) && raw == p + (left + [EQ] + right) + q
    ensures EQ !in left && TrimSpace(left) != []
  {
    SkippedEntry(raw);
    hide TrimLeft, TrimRight, IsSpace, FirstEq;
    p, q := TrimTakesPads(raw);
    var t := TrimSpace(raw);
    var i := FirstEq(t);
    left, right := t[..i], t[i + 1..];
    assert t == left + [EQ] + right;
  }

  /** Every line is one of those an author can write. */
  lemma LineIsItem(raw: string) returns (it: Item)
    requires NL !in raw
    ensures Valid(it) && Line(it) == raw
  {
    if Skipped(raw) {
      return Noise(raw);
    }
    hide TrimSpace, IsSpace, FirstEq;
    var p, left, right, q := Halves(raw);
    var a, b := TrimTakesPads(left);
    var c, d := TrimTakesPads(right);
    var key, val := TrimSpace(left), TrimSpace(right);
    it := Pair(key, val, p + a, b, c, d + q);
    Regroup(p, a, key, b, c, val, d, q);
    PiecesHave(raw, it);
    NoEqInside(a, key, b);
  }

  lemma NoEqInside(a: string, key: string, b: string)
    requires EQ !in a + key + b
    ensures EQ !in key
  {
    assert forall j :: 0 <= j < |key| ==> key[j] == (a + key + b)[|a| + j];
  }

  lemma Regroup(p: string, a: string, key: string, b: string, c: string, val: string, d: string, q: string)
    ensures p + ((a + key + b) + [EQ] + (c + val + d)) + q == (p + a) + key + b + [EQ] + c + val + (d + q)
  {
  }

  /** What is not in a line is in none of its pieces. */
  lemma PiecesHave(raw: string, it: Item)
    requires it.Pair? && Line(it) == raw && NL !in raw
    ensures NL !in it.key && NL !in it.value && NL !in it.before && NL !in it.afterKey && NL !in it.beforeValue
      && NL !in it.after
  {
    assert forall c ::
        c in it.before || c in it.key || c in it.afterKey || c in it.beforeValue || c in it.value || c in it.after ==>
          c in raw;
  }

  // ---------------------------------------------------------------- the whole text

  lemma {:induction false} ItemsRead(items: seq<Item>)
    requires AllValid(items)
    ensures Entries(Lines(items)) == Meant(items)
  {
    if items != [] {
      var front, last := items[..|items| - 1], items[|items| - 1];
      assert Lines(items)[..|items| - 1] == Lines(front);
      assert last in items;
      ItemsRead(front);
      if last.Pair? {
        PairEntry(last);
      } else {
        SkippedEntry(last.text);
      }
    }
  }

  lemma NoNewline(it: Item)
    requires Valid(it)
    ensures NL !in Line(it)
  {
  }

  /** Any text written as lines of pairs, in any order and with any white space, among lines to skip, is
      read as the author means it: the last line of each key counts, and no pair at all reads as nothing. */
  lemma RenderedIsRead(items: seq<Item>)
    requires items != [] && AllValid(items)
    ensures Parsed(Join(Lines(items))) == if Meant(items) == map[] then None else Some(Meant(items))
  {
    forall l | l in Lines(items) ensures NL !in l {
      var i :| 0 <= i < |items| && Lines(items)[i] == l;
      NoNewline(items[i]);
    }
    SplitJoin(Lines(items));
    ItemsRead(items);
  }

  lemma {:induction false} LinesAreItems(lines: seq<string>) returns (items: seq<Item>)
    requires forall l :: l in lines ==> NL !in l
    ensures AllValid(items) && Lines(items) == lines
  {
    if lines == [] {
      items := [];
    } else {
      var front := LinesAreItems(lines[..|lines| - 1]);
      var last := LineIsItem(lines[|lines| - 1]);
      items := front + [last];
      assert Lines(items) == Lines(front) + [Line(last)];
    }
  }

  /** And every text at all is such a text, so this says what the parser does on all of them. */
  lemma EveryTextIsItems(raw: string) returns (items: seq<Item>)
    ensures items != [] && AllValid(items) && Join(Lines(items)) == raw
    ensures Parsed(raw) == if Meant(items) == map[] then None else Some(Meant(items))
  {
    JoinSplit(raw);
    items := LinesAreItems(Split(raw));
    RenderedIsRead(items);
  }

  /** Reading back a map: each key written at least once, always with its value, among any lines to skip. */
  lemma RoundTrip(m: map<string, string>, items: seq<Item>)
    requires m != map[] && items != [] && AllValid(items)
    requires forall it :: it in items && it.Pair? ==> it.key in m && m[it.key] == it.value
    requires forall k :: k in m ==> exists it :: it in items && it.Pair? && it.key == k
    ensures Parsed(Join(Lines(items))) == Some(m)
  {
    RenderedIsRead(items);
    MeantIs(m, items);
    forall k | k in m ensures k in Meant(items) {
      var it :| it in items && it.Pair? && it.key == k;
    }
    assert Meant(items) == m;
  }

  lemma {:induction false} MeantIs(m: map<string, string>, items: seq<Item>)
    requires forall it :: it in items && it.Pair? ==> it.key in m && m[it.key] == it.value
    ensures forall k :: k in Meant(items) ==> k in m && m[k] == Meant(items)[k]
    ensures forall it :: it in items && it.Pair? ==> it.key in Meant(items)
  {
    if items != [] {
      var front, last := items[..|items| - 1], items[|items| - 1];
      assert items == front + [last];
      MeantIs(m, front);
    }
  }

  lemma {:induction false} SkippedLines(lines: seq<string>)
    requires forall l :: l in lines ==> Skipped(l)
    ensures Entries(lines) == map[]
  {
    if lines != [] {
      SkippedLines(lines[..|lines| - 1]);
      SkippedEntry(lines[|lines| - 1]);
    }
  }

  lemma {:induction false} BlankLines(raw: string)
    requires Blank(raw)
    ensures forall l :: l in Split(raw) ==> Blank(l)
  {
    if raw != [] {
      BlankLines(raw[1..]);
      assert Split(raw[1..])[0] in Split(raw[1..]);
    }
  }

  /** The early return on a blank text changes nothing. */
  lemma BlankHasNone(raw: string)
    requires TrimSpace(raw) == ""
    ensures Parsed(raw) == None
  {
    var p, q := TrimTakesPads(raw);
    assert raw == p + q;
    assert Blank(raw);
    BlankLines(raw);
    SkippedLines(Split(raw));
  }

  // ---------------------------------------------------------------- in plain characters

  /** Every line end as a carriage return and a line feed. */
  function Crlf(s: string): string {
    if s == "" then "" else if s[0] == '\n' then "\r\n" + Crlf(s[1..]) else [s[0]] + Crlf(s[1..])
  }

  lemma ReturnIsTrimmed(line: string)
    ensures TrimSpace(line + "\r") == TrimSpace(line)
  {
    var p, q := TrimTakesPads(line);
    var t := TrimSpace(line);
    assert line + "\r" == p + t + (q + "\r");
    TrimPadded(p, t, q + "\r");
  }

  /** The lines with a return at the end of all but the last. */
  function Returned(lines: seq<string>): (r: seq<string>)
    ensures |r| == |lines|
  {
    if |lines| <= 1 then lines else [lines[0] + "\r"] + Returned(lines[1..])
  }

  lemma {:induction false} ReturnedAre(lines: seq<string>, i: nat)
    requires i < |lines|
    ensures Returned(lines)[i] == lines[i] || Returned(lines)[i] == lines[i] + "\r"
  {
    if |lines| > 1 && i > 0 {
      ReturnedAre(lines[1..], i - 1);
    }
  }

  lemma SplitByte(c: char, s: string)
    ensures var rest := Split(s);
      Split([c] + s) == if c == NL then [[]] + rest else [[c] + rest[0]] + rest[1..]
  {
    assert ([c] + s)[1..] == s;
  }

  lemma ReturnedBreak(rest: seq<string>)
    requires rest != []
    ensures Returned([[]] + rest) == [['\r']] + Returned(rest)
  {
    var lines: seq<string> := [[]] + rest;
    assert lines[1..] == rest && lines[0] + "\r" == ['\r'];
  }

  lemma ReturnedByte(c: char, rest: seq<string>)
    requires rest != []
    ensures Returned([[c] + rest[0]] + rest[1..]) == [[c] + Returned(rest)[0]] + Returned(rest)[1..]
  {
    var lines := [[c] + rest[0]] + rest[1..];
    assert lines[1..] == rest[1..];
    assert ([c] + rest[0]) + "\r" == [c] + (rest[0] + "\r");
  }

  lemma BreakSplits(later: string)
    ensures Split(['\r', '\n'] + later) == [['\r']] + Split(later)
  {
    var s := ['\n'] + later;
    SplitByte('\n', later);
    SplitByte('\r', s);
    assert ['\r', '\n'] + later == ['\r'] + s;
    assert Split(s)[0] == [] && Split(s)[1..] == Split(later);
    assert ['\r'] + Split(s)[0] == ['\r'];
  }

  lemma {:induction false} CrlfLines(s: string)
    ensures Split(Crlf(s)) == Returned(Split(s))
  {
    if s != "" {
      CrlfLines(s[1..]);
      var rest, later := Split(s[1..]), Crlf(s[1..]);
      assert s == [s[0]] + s[1..];
      SplitByte(s[0], s[1..]);
      SplitByte(s[0], later);
      BreakSplits(later);
      ReturnedBreak(rest);
      ReturnedByte(s[0], rest);
      hide Split, Returned;
    }
  }

  lemma {:induction false} SameEntries(a: seq<string>, b: seq<string>)
    requires |a| == |b| && forall i :: 0 <= i < |a| ==> Entry(a[i]) == Entry(b[i])
    ensures Entries(a) == Entries(b)
  {
    if a != [] {
      hide Entry;
      SameEntries(a[..|a| - 1], b[..|b| - 1]);
    }
  }

  /** A text with CR LF line ends reads as the one with LF. */
  lemma CrlfReads(s: string)
    ensures Parsed(Crlf(s)) == Parsed(s)
  {
    var a, b := Split(s), Split(Crlf(s));
    CrlfLines(s);
    hide Split, Crlf, TrimSpace;
    forall i | 0 <= i < |a| ensures Entry(a[i]) == Entry(b[i]) {
      ReturnedAre(a, i);
      ReturnIsTrimmed(a[i]);
    }
    SameEntries(a, b);
  }

  /** White space by code point. */
  lemma SpaceCodes(c: char)
    ensures IsSpace(c) <==>
      || c as int in {9, 10, 11, 12, 13, 32, 0x85, 0xA0, 0x1680, 0x2028, 0x2029, 0x202F, 0x205F, 0x3000}
      || 0x2000 <= c as int <= 0x200A
  {
  }

  /** Visible ASCII characters. */
  predicate Visible(s: string) {
    s != "" && forall i :: 0 <= i < |s| ==> '!' <= s[i] <= '~'
  }

  /** KEY=VALUE lines as an author types them, with blanks and tabs around. */
  datatype Typed = Typed(before: string, key: string, value: string, after: string)

  predicate Typeable(l: Typed) {
    && Visible(l.key) && '=' !in l.key && Visible(l.value)
    && (forall i :: 0 <= i < |l.before| ==> l.before[i] == ' ' || l.before[i] == '\t')
    && (forall i :: 0 <= i < |l.after| ==> l.after[i] == ' ' || l.after[i] == '\t')
  }

  /** The text of some lines, each ended by a line feed. */
  function Text(ls: seq<Typed>): string {
    if ls == [] then ""
    else ls[0].before + ls[0].key + "=" + ls[0].value + ls[0].after + "\n" + Text(ls[1..])
  }

  /** The value of the last line with a key. */
  function ValueOf(ls: seq<Typed>, key: string): Option<string> {
    if ls == [] then None
    else if ls[|ls| - 1].key == key then Some(ls[|ls| - 1].value)
    else ValueOf(ls[..|ls| - 1], key)
  }

  /** Such a line as an item. */
  function Typeset(l: Typed): Item {
    Pair(l.key, l.value, l.before, "", "", l.after)
  }

  function TypesetAll(ls: seq<Typed>): seq<Item> {
    seq(|ls|, i requires 0 <= i < |ls| => Typeset(ls[i]))
  }

  lemma TypedIsValid(l: Typed)
    requires Typeable(l)
    ensures Valid(Typeset(l)) && Line(Typeset(l)) == l.before + l.key + "=" + l.value + l.after
  {
  }

  lemma {:induction false} TextIsJoined(ls: seq<Typed>)
    requires forall l :: l in ls ==> Typeable(l)
    ensures Text(ls) == Join(Lines(TypesetAll(ls) + [Noise("")]))
  {
    var all := Lines(TypesetAll(ls) + [Noise("")]);
    if ls == [] {
      assert all == [""];
    } else {
      assert ls[0] in ls;
      TypedIsValid(ls[0]);
      TextIsJoined(ls[1..]);
      assert all == [Line(Typeset(ls[0]))] + Lines(TypesetAll(ls[1..]) + [Noise("")]);
    }
  }

  lemma {:induction false} TypedMean(ls: seq<Typed>, key: string)
    ensures var m := Meant(TypesetAll(ls));
      ValueOf(ls, key) == if key in m then Some(m[key]) else None
  {
    if ls != [] {
      var front := ls[..|ls| - 1];
      assert TypesetAll(ls)[..|ls| - 1] == TypesetAll(front);
      TypedMean(front, key);
    }
  }

  /** What is typed is read: every key with the value of its last line, and no other key; and a text without
      lines as nothing. */
  lemma TypedIsRead(ls: seq<Typed>)
    requires forall l :: l in ls ==> Typeable(l)
    ensures Parsed(Text(ls)).Some? <==> ls != []
    ensures ls != [] ==> forall key ::
      ValueOf(ls, key) == if key in Parsed(Text(ls)).value then Some(Parsed(Text(ls)).value[key]) else None
  {
    var items := TypesetAll(ls) + [Noise("")];
    forall l | l in ls { TypedIsValid(l); }
    assert AllValid(items);
    TextIsJoined(ls);
    RenderedIsRead(items);
    assert items[..|items| - 1] == TypesetAll(ls);
    assert Meant(items) == Meant(TypesetAll(ls));
    forall key { TypedMean(ls, key); }
    if ls != [] {
      assert ValueOf(ls, ls[|ls| - 1].key).Some?;
    }
  }
}
