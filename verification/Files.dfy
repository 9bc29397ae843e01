/** The passwd and acl files of the rendered Secret: the printer, the reader the
    next pass uses, and a reader of the two line formats to state what the files
    say. */
module Files {
  import opened Text
  import opened Credentials

  const PASSWD_KEY := "passwd"
  const ACL_KEY := "acl"

  type Data = map<string, string>

  // ---------------------------------------------------------------- the printer

  function PasswdLine(u: Accepted): string { u.username + ":" + u.hash }

  function PasswdLines(users: seq<Accepted>): seq<string> {
    if users == [] then []
    else PasswdLines(users[..|users| - 1]) + [PasswdLine(users[|users| - 1])]
  }

  function TopicLine(a: Acl): string { "topic " + a.access + " " + a.topic }

  function TopicLines(acls: seq<Acl>): seq<string> {
    if acls == [] then [] else TopicLines(acls[..|acls| - 1]) + [TopicLine(acls[|acls| - 1])]
  }

  function UserBlock(u: Accepted, first: bool): seq<string> {
    (if first then [] else [""]) + ["user " + u.username] + TopicLines(u.acls)
  }

  function AclLines(users: seq<Accepted>): seq<string> {
    if users == [] then []
    else AclLines(users[..|users| - 1]) + UserBlock(users[|users| - 1], |users| == 1)
  }

  /** The two files for a list of users. */
  function RenderedFiles(users: seq<Accepted>): Data {
    map[PASSWD_KEY := Unlines(PasswdLines(users)), ACL_KEY := Unlines(AclLines(users))]
  }

  lemma PasswdGrows(users: seq<Accepted>, i: nat)
    requires i < |users|
    ensures Unlines(PasswdLines(users[..i + 1])) ==
            Unlines(PasswdLines(users[..i])) + (users[i].username + ":" + users[i].hash + "\n")
  {
    assert users[..i + 1][..i] == users[..i];
    UnlinesPush(PasswdLines(users[..i]), PasswdLine(users[i]));
  }

  /** The acl lines up to the open user line of user i. */
  function OpenLines(users: seq<Accepted>, i: nat): seq<string>
    requires i < |users|
  {
    AclLines(users[..i]) + (if i == 0 then [] else [""]) + ["user " + users[i].username]
  }

  lemma AclOpens(users: seq<Accepted>, i: nat)
    requires i < |users|
    ensures Unlines(OpenLines(users, i) + TopicLines([])) ==
            Unlines(AclLines(users[..i])) + (if i == 0 then "" else "\n") + ("user " + users[i].username + "\n")
    ensures OpenLines(users, i) + TopicLines(users[i].acls) == AclLines(users[..i + 1])
  {
    var before := AclLines(users[..i]);
    assert users[..i + 1][..i] == users[..i];
    assert OpenLines(users, i) + TopicLines([]) == OpenLines(users, i);
    if i == 0 {
      assert before + [] == before;
      UnlinesPush(before, "user " + users[i].username);
    } else {
      UnlinesPush(before, "");
      UnlinesPush(before + [""], "user " + users[i].username);
    }
    assert OpenLines(users, i) + TopicLines(users[i].acls) == before + UserBlock(users[i], i == 0);
  }

  lemma TopicsGrow(begun: seq<string>, acls: seq<Acl>, j: nat)
    requires j < |acls|
    ensures Unlines(begun + TopicLines(acls[..j + 1])) ==
            Unlines(begun + TopicLines(acls[..j])) + ("topic " + acls[j].access + " " + acls[j].topic + "\n")
  {
    assert acls[..j + 1][..j] == acls[..j];
    UnlinesPush(begun + TopicLines(acls[..j]), TopicLine(acls[j]));
    assert begun + TopicLines(acls[..j + 1]) == begun + TopicLines(acls[..j]) + [TopicLine(acls[j])];
  }

  /** The topic lines of a list of grants. */
  function GrantText(acls: seq<Acl>): string {
    if acls == [] then ""
    else
      var last := acls[|acls| - 1];
      GrantText(acls[..|acls| - 1]) + ("topic " + last.access + " " + last.topic + "\n")
  }

  lemma {:induction false} GrantsPrint(begun: seq<string>, acls: seq<Acl>)
    ensures Unlines(begun + TopicLines(acls)) == Unlines(begun) + GrantText(acls)
  {
    if acls == [] {
      assert begun + TopicLines(acls) == begun;
    } else {
      var init, last := acls[..|acls| - 1], acls[|acls| - 1];
      var line := "topic " + last.access + " " + last.topic + "\n";
      GrantsPrint(begun, init);
      TopicsGrow(begun, acls, |acls| - 1);
      assert acls[..|acls| - 1 + 1] == acls;
      assert GrantText(acls) == GrantText(init) + line;
      assert Unlines(begun) + (GrantText(init) + line) == (Unlines(begun) + GrantText(init)) + line;
    }
  }

  /** The two files, character by character: what one more user adds to each. */
  lemma PrintsOneMore(users: seq<Accepted>, u: Accepted)
    ensures RenderedFiles(users + [u])["passwd"] == RenderedFiles(users)["passwd"] + (u.username + ":" + u.hash + "\n")
    ensures RenderedFiles(users + [u])["acl"] ==
            RenderedFiles(users)["acl"] + (if users == [] then "" else "\n") + ("user " + u.username + "\n") + GrantText(u.acls)
  {
    var all, n := users + [u], |users|;
    assert all[..n] == users && all[..n + 1] == all && all[n] == u;
    PasswdGrows(all, n);
    AclOpens(all, n);
    GrantsPrint(OpenLines(all, n), u.acls);
    assert OpenLines(all, n) + TopicLines([]) == OpenLines(all, n);
  }

  /** FilePayload.Render: two string builders filled in nested loops. */
  method RenderFiles(users: seq<Accepted>) returns (data: Data)
    ensures data == RenderedFiles(users)
  {
    var passwd, acl := "", "";
    for i := 0 to |users|
      invariant passwd == Unlines(PasswdLines(users[..i]))
      invariant acl == Unlines(AclLines(users[..i]))
    {
      var u := users[i];
      PasswdGrows(users, i);
      passwd := passwd + (u.username + ":" + u.hash + "\n");
      AclOpens(users, i);
      if i > 0 {
        acl := acl + "\n";
      }
      acl := acl + ("user " + u.username + "\n");
      for j := 0 to |u.acls|
        invariant acl == Unlines(OpenLines(users, i) + TopicLines(u.acls[..j]))
      {
        var entry := u.acls[j];
        TopicsGrow(OpenLines(users, i), u.acls, j);
        acl := acl + ("topic " + entry.access + " " + entry.topic + "\n");
      }
      assert u.acls[..|u.acls|] == u.acls;
    }
    assert users[..|users|] == users;
    data := map[PASSWD_KEY := passwd, ACL_KEY := acl];
  }

  // --------------------------------------------------------- reading passwd back

  /** The username:hash entries of a passwd file's lines, in order. */
  function Entries(lines: seq<string>): seq<Pair<string, string>> {
    if lines == [] then []
    else
      var before := Entries(lines[..|lines| - 1]);
      match Cut(lines[|lines| - 1], ':')
      case Some(p) => if p.fst != "" then before + [p] else before
      case None => before
  }

  /** The map in which a later entry replaces an earlier one. */
  function ToMap(entries: seq<Pair<string, string>>): map<string, string> {
    if entries == [] then map[]
    else
      var last := entries[|entries| - 1];
      ToMap(entries[..|entries| - 1])[last.fst := last.snd]
  }

  function ReadPasswd(data: Data): seq<Pair<string, string>> {
    Entries(Split(Get(data, PASSWD_KEY), '\n'))
  }

  function KnownHashes(data: Data): map<string, string> { ToMap(ReadPasswd(data)) }

  /** FilePayload.Hashes: a map filled line by line. */
  method Hashes(previous: Data) returns (hashes: map<string, string>)
    ensures hashes == KnownHashes(previous)
  {
    hashes := map[];
    var lines := Split(Get(previous, PASSWD_KEY), '\n');
    for i := 0 to |lines|
      invariant hashes == ToMap(Entries(lines[..i]))
    {
      assert lines[..i + 1][..i] == lines[..i];
      var cut := Cut(lines[i], ':');
      if cut.Some? && cut.value.fst != "" {
        var e := Entries(lines[..i]);
        assert (e + [cut.value])[..|e|] == e;
        hashes := hashes[cut.value.fst := cut.value.snd];
      }
    }
    assert lines[..|lines|] == lines;
  }

  /** No hash read back spans two lines, however malformed the file. */
  lemma KnownOnOneLine(data: Data)
    ensures forall u :: u in KnownHashes(data) ==> '\n' !in KnownHashes(data)[u]
  {
    var lines := Split(Get(data, PASSWD_KEY), '\n');
    JoinSplit(Get(data, PASSWD_KEY), '\n');
    EntriesOnOneLine(lines);
    ToMapValues(Entries(lines));
  }

  lemma {:induction false} EntriesOnOneLine(lines: seq<string>)
    requires forall l :: l in lines ==> '\n' !in l
    ensures forall e :: e in Entries(lines) ==> '\n' !in e.snd
  {
    if lines != [] {
      var last := lines[|lines| - 1];
      assert last in lines;
      EntriesOnOneLine(lines[..|lines| - 1]);
      CutGlues(last, ':');
    }
  }

  lemma {:induction false} ToMapValues(entries: seq<Pair<string, string>>)
    ensures forall k :: k in ToMap(entries) ==> Pair(k, ToMap(entries)[k]) in entries
  {
    if entries != [] {
      var last := entries[|entries| - 1];
      assert last in entries;
      ToMapValues(entries[..|entries| - 1]);
    }
  }

  ghost predicate DistinctKeys(entries: seq<Pair<string, string>>) {
    forall i, j :: 0 <= i < j < |entries| ==> entries[i].fst != entries[j].fst
  }

  lemma {:induction false} ToMapDistinct(entries: seq<Pair<string, string>>)
    requires DistinctKeys(entries)
    ensures forall i :: 0 <= i < |entries| ==>
              entries[i].fst in ToMap(entries) && ToMap(entries)[entries[i].fst] == entries[i].snd
  {
    if entries != [] {
      ToMapDistinct(entries[..|entries| - 1]);
    }
  }

  ghost predicate DistinctUsernames(users: seq<Accepted>) {
    forall i, j :: 0 <= i < j < |users| ==> users[i].username != users[j].username
  }

  ghost predicate Printable(u: Accepted) {
    PlainUsername(u.username) && '\n' !in u.hash && forall a :: a in u.acls ==> PlainAcl(a)
  }

  function EntryOf(u: Accepted): Pair<string, string> { Pair(u.username, u.hash) }

  function EntriesOf(users: seq<Accepted>): (r: seq<Pair<string, string>>)
    ensures |r| == |users|
    ensures forall i :: 0 <= i < |users| ==> r[i] == EntryOf(users[i])
  {
    if users == [] then [] else EntriesOf(users[..|users| - 1]) + [EntryOf(users[|users| - 1])]
  }

  lemma {:induction false} EntriesOfLines(users: seq<Accepted>)
    requires forall u :: u in users ==> Printable(u)
    ensures Entries(PasswdLines(users)) == EntriesOf(users)
    ensures forall l :: l in PasswdLines(users) ==> '\n' !in l
  {
    if users != [] {
      var u := users[|users| - 1];
      assert u in users;
      EntriesOfLines(users[..|users| - 1]);
      assert PasswdLine(u) == u.username + [':'] + u.hash;
      CutAt(u.username, u.hash, ':');
      var lines := PasswdLines(users);
      assert lines[..|lines| - 1] == PasswdLines(users[..|users| - 1]);
    }
  }

  /** Reading the printed passwd file gives exactly the printed users and hashes,
      in order. */
  lemma PasswdRoundTrip(users: seq<Accepted>)
    requires forall u :: u in users ==> Printable(u)
    ensures ReadPasswd(RenderedFiles(users)) == EntriesOf(users)
  {
    EntriesOfLines(users);
    var lines := PasswdLines(users);
    SplitUnlines(lines);
    assert (lines + [""])[..|lines|] == lines;
  }

  /** The hash the next pass finds for a printed user is the printed one. */
  lemma HashesRoundTrip(users: seq<Accepted>)
    requires forall u :: u in users ==> Printable(u)
    requires DistinctUsernames(users)
    ensures forall u :: u in users ==> Get(KnownHashes(RenderedFiles(users)), u.username) == u.hash
  {
    PasswdRoundTrip(users);
    ToMapDistinct(EntriesOf(users));
    forall u | u in users ensures Get(KnownHashes(RenderedFiles(users)), u.username) == u.hash {
      var i :| 0 <= i < |users| && users[i] == u;
      assert EntriesOf(users)[i] == EntryOf(u);
    }
  }

  // ------------------------------------------------------------ reading acl back

  /** What an acl file grants one user. */
  datatype Block = Block(user: string, grants: seq<Acl>)

  /** One line of an acl file: a user line opens a block, a topic line adds a grant
      to the open block, anything else says nothing. */
  function ReadAclLine(blocks: seq<Block>, line: string): seq<Block> {
    if HasPrefix(line, "user ") then blocks + [Block(line[5..], [])]
    else if HasPrefix(line, "topic ") && blocks != [] then
      match Cut(line[6..], ' ')
      case None => blocks
      case Some(p) =>
        var open := blocks[|blocks| - 1];
        blocks[..|blocks| - 1] + [Block(open.user, open.grants + [Acl(p.snd, p.fst)])]
    else blocks
  }

  function ReadAclLines(blocks: seq<Block>, lines: seq<string>): seq<Block>
    decreases |lines|
  {
    if lines == [] then blocks else ReadAclLines(ReadAclLine(blocks, lines[0]), lines[1..])
  }

  function ReadAcl(data: Data): seq<Block> {
    ReadAclLines([], Split(Get(data, ACL_KEY), '\n'))
  }

  lemma {:induction false} ReadAclAppend(blocks: seq<Block>, a: seq<string>, b: seq<string>)
    ensures ReadAclLines(blocks, a + b) == ReadAclLines(ReadAclLines(blocks, a), b)
    decreases |a|
  {
    if a == [] {
      assert a + b == b;
    } else {
      assert (a + b)[1..] == a[1..] + b;
      ReadAclAppend(ReadAclLine(blocks, a[0]), a[1..], b);
    }
  }

  lemma ReadAclOne(blocks: seq<Block>, line: string)
    ensures ReadAclLines(blocks, [line]) == ReadAclLine(blocks, line)
  {
  }

  /** A topic line is told by its first letter, and cuts into access and topic. */
  lemma TopicLineShape(a: Acl)
    requires PlainAcl(a)
    ensures var line := TopicLine(a);
            && !HasPrefix(line, "user ") && HasPrefix(line, "topic ")
            && Cut(line[6..], ' ') == Some(Pair(a.access, a.topic))
  {
    var line := TopicLine(a);
    var tail := a.access + [' '] + a.topic;
    assert line == "topic " + tail;
    HasPrefixConcat("topic ", tail);
    assert line[..5][0] == 't' && "user "[0] == 'u';
    assert ' ' !in a.access;
    CutAt(a.access, a.topic, ' ');
  }

  lemma TopicLineOneLine(a: Acl)
    requires PlainAcl(a)
    ensures '\n' !in TopicLine(a)
  {
  }

  lemma ReadTopicLine(blocks: seq<Block>, open: Block, a: Acl)
    requires PlainAcl(a)
    ensures ReadAclLine(blocks + [open], TopicLine(a)) == blocks + [Block(open.user, open.grants + [a])]
  {
    TopicLineShape(a);
    assert (blocks + [open])[..|blocks|] == blocks;
  }

  lemma ReadUserLine(blocks: seq<Block>, username: string)
    ensures ReadAclLine(blocks, "user " + username) == blocks + [Block(username, [])]
  {
  }

  lemma {:induction false} ReadTopicLines(blocks: seq<Block>, username: string, acls: seq<Acl>)
    requires forall a :: a in acls ==> PlainAcl(a)
    ensures ReadAclLines(blocks + [Block(username, [])], TopicLines(acls)) == blocks + [Block(username, acls)]
    ensures forall l :: l in TopicLines(acls) ==> '\n' !in l
  {
    if acls != [] {
      var init, a := acls[..|acls| - 1], acls[|acls| - 1];
      assert a in acls;
      ReadTopicLines(blocks, username, init);
      ReadAclAppend(blocks + [Block(username, [])], TopicLines(init), [TopicLine(a)]);
      ReadAclOne(blocks + [Block(username, init)], TopicLine(a));
      ReadTopicLine(blocks, Block(username, init), a);
      TopicLineOneLine(a);
      assert acls == init + [a];
    }
  }

  function BlockOf(u: Accepted): Block { Block(u.username, u.acls) }

  function BlocksOf(users: seq<Accepted>): (r: seq<Block>)
    ensures |r| == |users|
    ensures forall i :: 0 <= i < |users| ==> r[i] == BlockOf(users[i])
  {
    if users == [] then [] else BlocksOf(users[..|users| - 1]) + [BlockOf(users[|users| - 1])]
  }

  lemma ReadUserBlock(blocks: seq<Block>, u: Accepted, first: bool)
    requires Printable(u)
    ensures ReadAclLines(blocks, UserBlock(u, first)) == blocks + [BlockOf(u)]
    ensures forall l :: l in UserBlock(u, first) ==> '\n' !in l
  {
    var head: seq<string> := if first then [] else [""];
    var line := "user " + u.username;
    assert '\n' !in "user ";
    assert ReadAclLines(blocks, head) == blocks by {
      if !first { ReadAclOne(blocks, ""); }
    }
    ReadAclAppend(blocks, head, [line]);
    ReadAclOne(blocks, line);
    ReadUserLine(blocks, u.username);
    ReadAclAppend(blocks, head + [line], TopicLines(u.acls));
    ReadTopicLines(blocks, u.username, u.acls);
  }

  lemma {:induction false} ReadAclOfLines(users: seq<Accepted>)
    requires forall u :: u in users ==> Printable(u)
    ensures ReadAclLines([], AclLines(users)) == BlocksOf(users)
    ensures forall l :: l in AclLines(users) ==> '\n' !in l
  {
    if users != [] {
      var init, u := users[..|users| - 1], users[|users| - 1];
      assert u in users;
      ReadAclOfLines(init);
      ReadAclAppend([], AclLines(init), UserBlock(u, |users| == 1));
      ReadUserBlock(BlocksOf(init), u, |users| == 1);
    }
  }

  /** Reading the printed acl file gives exactly one block per printed user, in
      order, with exactly that user's entries. */
  lemma AclRoundTrip(users: seq<Accepted>)
    requires forall u :: u in users ==> Printable(u)
    ensures ReadAcl(RenderedFiles(users)) == BlocksOf(users)
  {
    ReadAclOfLines(users);
    var lines := AclLines(users);
    SplitUnlines(lines);
    ReadAclAppend([], lines, [""]);
    ReadAclOne(BlocksOf(users), "");
  }
}
