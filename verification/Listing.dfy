/** The file list: comma join on the server, `getline` split on the client. */
module Listing {
  import opened Config
  import opened Bytes

  const COMMA: byte := 44
  const ERROR_TEXT: bytes := [101, 114, 114, 111, 114]

  /** A directory entry the list can carry. */
  predicate ListName(n: Name) {
    n != [] && COMMA !in n && 0 !in n
  }

  ghost predicate ListNames(names: seq<Name>) {
    forall i :: 0 <= i < |names| ==> ListName(names[i])
  }

  /** `names[0],names[1],...` */
  function Join(names: seq<Name>): bytes {
    if names == [] then []
    else if |names| == 1 then names[0]
    else names[0] + [COMMA] + Join(names[1..])
  }

  /** The text built by appending each name and a comma. */
  function JoinTrailing(names: seq<Name>): bytes {
    if names == [] then [] else JoinTrailing(names[..|names| - 1]) + names[|names| - 1] + [COMMA]
  }

  /** Up to the first comma. */
  function Head(s: bytes): (r: bytes)
    ensures |r| <= |s| && r == s[..|r|] && COMMA !in r
    ensures |r| < |s| ==> s[|r|] == COMMA
  {
    if s == [] || s[0] == COMMA then [] else [s[0]] + Head(s[1..])
  }

  /** Repeated `getline(stream, name, ',')` until the stream is exhausted. */
  function Split(s: bytes): seq<Name>
    decreases |s|
  {
    if s == [] then []
    else if |Head(s)| == |s| then [s]
    else [Head(s)] + Split(s[|Head(s)| + 1..])
  }

  lemma {:induction false} HeadUnique(n: bytes, rest: bytes)
    requires COMMA !in n
    requires rest == [] || rest[0] == COMMA
    ensures Head(n + rest) == n
  {
    if n == [] {
      assert n + rest == rest;
    } else {
      assert (n + rest)[1..] == n[1..] + rest;
      HeadUnique(n[1..], rest);
    }
  }

  /** The split undoes the join. */
  lemma {:induction false} SplitJoin(names: seq<Name>)
    requires ListNames(names)
    ensures Split(Join(names)) == names
  {
    if |names| == 1 {
      HeadUnique(names[0], []);
      assert names[0] + [] == names[0];
      assert names == [names[0]];
    } else if |names| > 1 {
      var rest := Join(names[1..]);
      assert Join(names) == names[0] + ([COMMA] + rest);
      HeadUnique(names[0], [COMMA] + rest);
      assert Join(names)[|names[0]| + 1..] == rest;
      assert forall i :: 0 <= i < |names[1..]| ==> names[1..][i] == names[i + 1];
      SplitJoin(names[1..]);
      assert names == [names[0]] + names[1..];
    }
  }

  lemma {:induction false} JoinIsText(names: seq<Name>)
    requires ListNames(names)
    ensures 0 !in Join(names)
    ensures Join(names) == [] <==> names == []
  {
    if |names| > 1 {
      assert forall i :: 0 <= i < |names[1..]| ==> names[1..][i] == names[i + 1];
      JoinIsText(names[1..]);
    }
  }

  lemma {:induction false} JoinTrailingFront(names: seq<Name>)
    requires names != []
    ensures JoinTrailing(names) == names[0] + [COMMA] + JoinTrailing(names[1..])
  {
    var last := names[|names| - 1];
    if |names| == 1 {
      assert names[..0] == [] && names[1..] == [];
    } else {
      var front := names[..|names| - 1];
      JoinTrailingFront(front);
      assert names[1..][..|names[1..]| - 1] == front[1..];
      assert JoinTrailing(names[1..]) == JoinTrailing(front[1..]) + last + [COMMA];
    }
  }

  /** Dropping the trailing comma of the appended text gives the comma join. */
  lemma {:induction false} JoinDropsComma(names: seq<Name>)
    ensures names == [] ==> JoinTrailing(names) == []
    ensures names != [] ==> JoinTrailing(names) == Join(names) + [COMMA]
  {
    if names != [] {
      JoinTrailingFront(names);
      JoinDropsComma(names[1..]);
      if |names| == 1 {
        assert JoinTrailing(names) == names[0] + [COMMA];
      } else {
        assert JoinTrailing(names) == names[0] + [COMMA] + Join(names[1..]) + [COMMA];
      }
    }
  }

  /** The text sent in the third message: the joined names and a NUL, read back as a C string. */
  lemma ListRoundTrip(names: seq<Name>)
    requires ListNames(names)
    ensures Split(CString(Join(names) + [0])) == names
  {
    JoinIsText(names);
    CStringUnique(Join(names) + [0], Join(names));
    SplitJoin(names);
  }

  /** The failure sentinel is produced by exactly one listable directory. */
  lemma SentinelOnlyAlone(names: seq<Name>)
    requires ListNames(names)
    ensures Join(names) == ERROR_TEXT <==> names == [ERROR_TEXT]
  {
    SplitJoin(names);
    assert ListNames([ERROR_TEXT]);
    SplitJoin([ERROR_TEXT]);
  }

  /** FileManager::getFilesList: the entries of a directory appended one by one, or the sentinel when there is no such directory. */
  method GetFilesList(entries: Option<seq<Name>>) returns (files: bytes)
    ensures files == if entries.Some? then Join(entries.value) else ERROR_TEXT
  {
    if entries.None? {
      return ERROR_TEXT;
    }
    var names := entries.value;
    files := [];
    var i := 0;
    while i < |names|
      invariant 0 <= i <= |names|
      invariant files == JoinTrailing(names[..i])
    {
      assert names[..i + 1][..i] == names[..i];
      files := files + (names[i] + [COMMA]);
      i := i + 1;
    }
    assert names[..|names|] == names;
    JoinDropsComma(names);
    if files != [] {
      files := files[..|files| - 1];
    }
  }

  lemma {:induction false} SplitAppends(done: seq<Name>, s: bytes)
    requires s != []
    ensures done + Split(s) == if |Head(s)| == |s| then done + [s]
                               else (done + [Head(s)]) + Split(s[|Head(s)| + 1..])
  {
  }

  /** One `getline`: the name before the next comma. */
  method GetLine(text: bytes) returns (name: Name)
    ensures name == Head(text)
  {
    var k := 0;
    while k < |text| && text[k] != COMMA
      invariant 0 <= k <= |text|
      invariant COMMA !in text[..k]
    {
      k := k + 1;
    }
    HeadUnique(text[..k], text[k..]);
    assert text[..k] + text[k..] == text;
    name := text[..k];
  }

  /** The `getline` loop of Client::listRequest. */
  method ReadFileNames(text: bytes) returns (names: seq<Name>)
    ensures names == Split(text)
  {
    names := [];
    var rest := text;
    while rest != []
      invariant names + Split(rest) == Split(text)
      decreases |rest|
    {
      SplitAppends(names, rest);
      var name := GetLine(rest);
      if |name| == |rest| {
        names := names + [rest];
        rest := [];
      } else {
        names := names + [name];
        rest := rest[|name| + 1..];
      }
    }
  }
}
