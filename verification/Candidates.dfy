/** The message between the scheduler extender, which joins candidate node names with commas,
    and the controller, which splits, trims and drops what is empty. */
module Candidates {

  /** Unicode's White_Space property. */
  predicate IsSpace(c: char) {
    var u := c as int;
    || 0x09 <= u <= 0x0D || u == 0x20 || u == 0x85 || u == 0xA0 || u == 0x1680
    || 0x2000 <= u <= 0x200A || u == 0x2028 || u == 0x2029 || u == 0x202F || u == 0x205F || u == 0x3000
  }

  function TrimLeft(s: string): string {
    if s != "" && IsSpace(s[0]) then TrimLeft(s[1..]) else s
  }

  function TrimRight(s: string): string {
    if s != "" && IsSpace(s[|s| - 1]) then TrimRight(s[..|s| - 1]) else s
  }

  function TrimSpace(s: string): string {
    TrimRight(TrimLeft(s))
  }

  /** The pieces of s between commas; the empty string has one piece. */
  function Split(s: string): (pieces: seq<string>)
    ensures |pieces| > 0
  {
    if s == "" then [""]
    else
      var rest := Split(s[1..]);
      if s[0] == ',' then [""] + rest else [[s[0]] + rest[0]] + rest[1..]
  }

  function Join(names: seq<string>): string {
    if names == [] then ""
    else if |names| == 1 then names[0]
    else names[0] + "," + Join(names[1..])
  }

  /** The trimmed pieces that are not empty, in order. */
  function KeepNames(pieces: seq<string>): seq<string> {
    if pieces == [] then []
    else
      var name := TrimSpace(pieces[|pieces| - 1]);
      KeepNames(pieces[..|pieces| - 1]) + if name == "" then [] else [name]
  }

  function ParseNames(message: string): seq<string> {
    KeepNames(Split(message))
  }

  /** Names the message can carry: not empty, no comma, no space at either end. */
  predicate CleanName(name: string) {
    && name != ""
    && ',' !in name
    && !IsSpace(name[0])
    && !IsSpace(name[|name| - 1])
  }

  predicate AllClean(names: seq<string>) {
    forall i :: 0 <= i < |names| ==> CleanName(names[i])
  }

  // ----- the loops -----

  /** The controller's parser. */
  method ParseCandidateNodes(message: string) returns (nodes: seq<string>)
    ensures nodes == ParseNames(message)
  {
    nodes := [];
    if message == "" {
      assert Split(message)[..0] == [] && TrimSpace("") == "";
      return;
    }
    var names := Split(message);
    for i := 0 to |names|
      invariant nodes == KeepNames(names[..i])
    {
      assert names[..i + 1][..i] == names[..i];
      var n := TrimSpace(names[i]);
      if n == "" {
        continue;
      }
      nodes := nodes + [n];
    }
    assert names[..|names|] == names;
  }

  // ----- trimming and splitting -----

  lemma {:induction false} TrimLeftIsSuffix(s: string)
    ensures exists k :: 0 <= k <= |s| && TrimLeft(s) == s[k..]
    ensures TrimLeft(s) != "" ==> !IsSpace(TrimLeft(s)[0])
  {
    if s != "" && IsSpace(s[0]) {
      TrimLeftIsSuffix(s[1..]);
      var k :| 0 <= k <= |s[1..]| && TrimLeft(s[1..]) == s[1..][k..];
      assert s[1..][k..] == s[k + 1..];
    } else {
      assert s == s[0..];
    }
  }

  lemma {:induction false} TrimRightIsPrefix(s: string)
    ensures exists k :: 0 <= k <= |s| && TrimRight(s) == s[..k]
    ensures var r := TrimRight(s); r != "" ==> !IsSpace(r[|r| - 1])
  {
    if s != "" && IsSpace(s[|s| - 1]) {
      TrimRightIsPrefix(s[..|s| - 1]);
      var k :| 0 <= k <= |s| - 1 && TrimRight(s[..|s| - 1]) == s[..|s| - 1][..k];
      assert s[..|s| - 1][..k] == s[..k];
    } else {
      assert s == s[..|s|];
    }
  }

  /** A trimmed piece without commas is clean unless it is empty. */
  lemma TrimmedIsClean(piece: string)
    requires ',' !in piece
    ensures TrimSpace(piece) == "" || CleanName(TrimSpace(piece))
  {
    TrimLeftIsSuffix(piece);
    TrimRightIsPrefix(TrimLeft(piece));
  }

  lemma TrimKeepsClean(name: string)
    requires CleanName(name)
    ensures TrimSpace(name) == name
  {
    assert TrimLeft(name) == name;
  }

  lemma {:induction false} PiecesHaveNoComma(s: string)
    ensures forall i :: 0 <= i < |Split(s)| ==> ',' !in Split(s)[i]
  {
    if s != "" {
      PiecesHaveNoComma(s[1..]);
    }
  }

  lemma {:induction false} SplitOfPiece(head: string)
    requires ',' !in head
    ensures Split(head) == [head]
  {
    if head != "" {
      SplitOfPiece(head[1..]);
      assert head == [head[0]] + head[1..];
    }
  }

  lemma {:induction false} SplitOfConcat(head: string, tail: string)
    requires ',' !in head
    ensures Split(head + "," + tail) == [head] + Split(tail)
  {
    var s := head + "," + tail;
    if head == "" {
      assert s[1..] == tail;
    } else {
      assert s[1..] == head[1..] + "," + tail;
      SplitOfConcat(head[1..], tail);
      assert head == [head[0]] + head[1..];
    }
  }

  lemma {:induction false} SplitUndoesJoin(names: seq<string>)
    requires names != [] && forall i :: 0 <= i < |names| ==> ',' !in names[i]
    ensures Split(Join(names)) == names
  {
    if |names| == 1 {
      SplitOfPiece(names[0]);
    } else {
      SplitUndoesJoin(names[1..]);
      SplitOfConcat(names[0], Join(names[1..]));
    }
  }

  lemma {:induction false} KeepsCleanPieces(names: seq<string>)
    requires AllClean(names)
    ensures KeepNames(names) == names
  {
    if names != [] {
      KeepsCleanPieces(names[..|names| - 1]);
      TrimKeepsClean(names[|names| - 1]);
    }
  }

  lemma {:induction false} KeptNamesAreClean(pieces: seq<string>)
    requires forall i :: 0 <= i < |pieces| ==> ',' !in pieces[i]
    ensures AllClean(KeepNames(pieces))
  {
    if pieces != [] {
      KeptNamesAreClean(pieces[..|pieces| - 1]);
      TrimmedIsClean(pieces[|pieces| - 1]);
    }
  }

  // ----- round trips -----

  /** Whatever the message, the parsed names are clean. */
  lemma ParsedNamesAreClean(message: string)
    ensures AllClean(ParseNames(message))
  {
    PiecesHaveNoComma(message);
    KeptNamesAreClean(Split(message));
  }

  /** Parsing the extender's message gives back its list exactly when every name is clean. */
  lemma {:induction false} MessageRoundTrip(names: seq<string>)
    ensures ParseNames(Join(names)) == names <==> AllClean(names)
  {
    if AllClean(names) {
      if names == [] {
        assert Split("") == [""] && [""][..0] == [] && TrimSpace("") == "";
      } else {
        SplitUndoesJoin(names);
        KeepsCleanPieces(names);
      }
    }
    ParsedNamesAreClean(Join(names));
  }

  /** Parsing is idempotent through a join, for every message. */
  lemma ParseJoinParse(message: string)
    ensures ParseNames(Join(ParseNames(message))) == ParseNames(message)
  {
    ParsedNamesAreClean(message);
    MessageRoundTrip(ParseNames(message));
  }

  // ----- what the parser makes of any message -----

  /** The spaces, one by one. */
  lemma SpacesAre(c: char)
    ensures IsSpace(c) <==>
            c as int in {9, 10, 11, 12, 13, 32, 133, 160, 5760, 8192, 8193, 8194, 8195, 8196, 8197, 8198, 8199, 8200,
                         8201, 8202, 8232, 8233, 8239, 8287, 12288}
  {
  }

  predicate Blank(s: string) {
    forall i :: 0 <= i < |s| ==> IsSpace(s[i])
  }

  lemma {:induction false} TrimDropsLeft(left: string, s: string)
    requires Blank(left)
    ensures TrimLeft(left + s) == TrimLeft(s)
  {
    if left != "" {
      assert (left + s)[1..] == left[1..] + s;
      TrimDropsLeft(left[1..], s);
    } else {
      assert left + s == s;
    }
  }

  lemma {:induction false} TrimDropsRight(s: string, right: string)
    requires Blank(right)
    ensures TrimRight(s + right) == TrimRight(s)
  {
    if right != "" {
      var n := |right| - 1;
      assert (s + right)[..|s + right| - 1] == s + right[..n];
      TrimDropsRight(s, right[..n]);
    } else {
      assert s + right == s;
    }
  }

  /** Spaces around a name are dropped and the name is kept. */
  lemma {:induction false} ParseOfPadded(left: string, name: string, right: string)
    requires Blank(left) && CleanName(name) && Blank(right) && ',' !in left && ',' !in right
    ensures ParseNames(left + name + right) == [name]
  {
    var s := left + name + right;
    SplitOfPiece(s);
    assert s == left + (name + right);
    TrimDropsLeft(left, name + right);
    assert TrimLeft(name + right) == name + right;
    TrimDropsRight(name, right);
    assert TrimRight(name) == name;
    KeepOne(s);
  }

  /** A message of spaces names nothing. */
  lemma {:induction false} ParseOfBlank(s: string)
    requires Blank(s) && ',' !in s
    ensures ParseNames(s) == []
  {
    SplitOfPiece(s);
    TrimDropsLeft(s, "");
    assert s + "" == s;
    KeepOne(s);
  }

  lemma {:induction false} KeepOne(piece: string)
    ensures KeepNames([piece]) == if TrimSpace(piece) == "" then [] else [TrimSpace(piece)]
  {
    assert [piece][..0] == [];
  }

  lemma {:induction false} SplitOfJoined(a: string, b: string)
    ensures Split(a + "," + b) == Split(a) + Split(b)
  {
    if a == "" {
      SplitOfConcat("", b);
    } else {
      SplitOfJoined(a[1..], b);
      assert (a + "," + b)[1..] == a[1..] + "," + b;
      SplitPrepends(a);
      SplitPrepends(a + "," + b);
      PrependToConcat(a[0], Split(a[1..]), Split(b));
    }
  }

  /** The pieces when a character is put in front. */
  function Prepend(c: char, pieces: seq<string>): seq<string>
    requires pieces != []
  {
    if c == ',' then [""] + pieces else [[c] + pieces[0]] + pieces[1..]
  }

  lemma {:induction false} SplitPrepends(s: string)
    requires s != ""
    ensures Split(s) == Prepend(s[0], Split(s[1..]))
  {
  }

  lemma {:induction false} PrependToConcat(c: char, p: seq<string>, q: seq<string>)
    requires p != []
    ensures Prepend(c, p + q) == Prepend(c, p) + q
  {
    if c != ',' {
      assert (p + q)[1..] == p[1..] + q;
    }
  }

  lemma {:induction false} KeepOfConcat(a: seq<string>, b: seq<string>)
    ensures KeepNames(a + b) == KeepNames(a) + KeepNames(b)
  {
    if b == [] {
      assert a + b == a;
    } else {
      var n := |b| - 1;
      assert (a + b)[..|a + b| - 1] == a + b[..n];
      KeepOfConcat(a, b[..n]);
    }
  }

  /** A comma separates: both sides are parsed for themselves. */
  lemma {:induction false} ParseOfJoined(a: string, b: string)
    ensures ParseNames(a + "," + b) == ParseNames(a) + ParseNames(b)
  {
    SplitOfJoined(a, b);
    KeepOfConcat(Split(a), Split(b));
  }

  /** What the extender writes: the names with a single comma between any two. */
  lemma {:induction false} JoinOfConcat(a: seq<string>, b: seq<string>)
    ensures Join([]) == "" && forall name :: Join([name]) == name
    ensures a != [] && b != [] ==> Join(a + b) == Join(a) + "," + Join(b)
  {
    if a != [] && b != [] {
      if |a| > 1 {
        JoinOfConcat(a[1..], b);
        assert (a + b)[1..] == a[1..] + b;
      } else {
        assert (a + b)[1..] == b;
      }
    }
  }
}
