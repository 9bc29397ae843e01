/** The topic filters an ACL may name: the renderer's check, level by level, and
    the character rules of OASIS MQTT Version 5.0 it has to agree with. */
module Topics {
  import opened Text

  datatype Problem = Empty | BrokerReserved | NotUtf8 | ControlCharacter | Padded | MisplacedHash | MisplacedPlus

  predicate IsControl(c: char) { c as int < 0x20 || c as int == 0x7f }

  // ---------------------------------------------------------------- the check

  /** The loop over the levels, from level i on. */
  function LevelsProblem(levels: seq<string>, i: nat): Option<Problem>
    requires i <= |levels|
    decreases |levels| - i
  {
    if i == |levels| then None
    else if '#' in levels[i] && (levels[i] != "#" || i != |levels| - 1) then Some(MisplacedHash)
    else if '+' in levels[i] && levels[i] != "+" then Some(MisplacedPlus)
    else LevelsProblem(levels, i + 1)
  }

  /** topicProblem; utf8 is utf8.ValidString. */
  function TopicProblem(utf8: string -> bool, topic: string): Option<Problem> {
    if topic == "" then Some(Empty)
    else if HasPrefix(topic, "$") then Some(BrokerReserved)
    else if !utf8(topic) then Some(NotUtf8)
    else if exists c :: c in topic && IsControl(c) then Some(ControlCharacter)
    else if TrimSpace(topic) != topic then Some(Padded)
    else LevelsProblem(Split(topic, '/'), 0)
  }

  // ------------------------------------------------------------- the standard

  predicate StartsLevel(s: string, i: nat) requires i < |s| { i == 0 || s[i - 1] == '/' }

  predicate EndsLevel(s: string, i: nat) requires i < |s| { i == |s| - 1 || s[i + 1] == '/' }

  /** Section 4.7.1.2 of OASIS MQTT Version 5.0: the multi-level wildcard stands on
      its own or after a separator, and is the last character. Section 4.7.1.3: the
      single-level wildcard occupies an entire level. */
  ghost predicate WildcardsStandard(s: string) {
    && (forall i :: 0 <= i < |s| && s[i] == '#' ==> StartsLevel(s, i) && i == |s| - 1)
    && (forall i :: 0 <= i < |s| && s[i] == '+' ==> StartsLevel(s, i) && EndsLevel(s, i))
  }

  /** The level rules as one statement over all levels. */
  ghost predicate LevelsStandard(levels: seq<string>) {
    && (forall i :: 0 <= i < |levels| && '#' in levels[i] ==> levels[i] == "#" && i == |levels| - 1)
    && (forall i :: 0 <= i < |levels| && '+' in levels[i] ==> levels[i] == "+")
  }

  lemma {:induction false} LevelsProblemMeans(levels: seq<string>, i: nat)
    requires i <= |levels|
    ensures LevelsProblem(levels, i).None? <==>
              && (forall j :: i <= j < |levels| && '#' in levels[j] ==> levels[j] == "#" && j == |levels| - 1)
              && (forall j :: i <= j < |levels| && '+' in levels[j] ==> levels[j] == "+")
    decreases |levels| - i
  {
    if i < |levels| { LevelsProblemMeans(levels, i + 1); }
  }

  /** A wildcard that is alone in its level, read off the characters. */
  lemma AloneInLevel(level: string, w: char)
    requires '/' !in level && w != '/'
    ensures (w in level ==> level == [w]) <==>
            (forall i :: 0 <= i < |level| && level[i] == w ==> StartsLevel(level, i) && EndsLevel(level, i))
  {
  }

  /** The wildcard rules carry over from a filter's tail to the filter when a
      level with well-placed wildcards and no # is put in front. */
  lemma StandardCons(level: string, tail: string)
    requires '/' !in level
    ensures WildcardsStandard(level + "/" + tail) <==>
              '#' !in level && ('+' in level ==> level == "+") && WildcardsStandard(tail)
  {
    var s := level + "/" + tail;
    var n := |level|;
    assert s[n] == '/';
    assert forall i :: 0 <= i < n ==> s[i] == level[i];
    assert forall i :: 0 <= i < |tail| ==> s[n + 1 + i] == tail[i];
    AloneInLevel(level, '+');
    if WildcardsStandard(s) {
      forall i | 0 <= i < n ensures level[i] != '#' {
        assert s[i] == level[i];
      }
      forall i | 0 <= i < n && level[i] == '+' ensures StartsLevel(level, i) && EndsLevel(level, i) {
        assert s[i] == '+';
      }
      forall i | 0 <= i < |tail| && (tail[i] == '#' || tail[i] == '+')
        ensures StartsLevel(tail, i)
        ensures tail[i] == '#' ==> i == |tail| - 1
        ensures tail[i] == '+' ==> EndsLevel(tail, i)
      {
        assert s[n + 1 + i] == tail[i];
        assert i > 0 ==> s[n + i] == tail[i - 1];
        assert i < |tail| - 1 ==> s[n + 2 + i] == tail[i + 1];
      }
    }
    if '#' !in level && ('+' in level ==> level == "+") && WildcardsStandard(tail) {
      forall i | 0 <= i < |s| && (s[i] == '#' || s[i] == '+')
        ensures StartsLevel(s, i)
        ensures s[i] == '#' ==> i == |s| - 1
        ensures s[i] == '+' ==> EndsLevel(s, i)
      {
        if i < n {
          assert level[i] in level;
        } else {
          var j := i - n - 1;
          assert tail[j] == s[i];
          assert j > 0 ==> s[i - 1] == tail[j - 1];
          assert j < |tail| - 1 ==> s[i + 1] == tail[j + 1];
        }
      }
    }
  }

  lemma StandardOne(level: string)
    requires '/' !in level
    ensures WildcardsStandard(level) <==> LevelsStandard([level])
  {
    AloneInLevel(level, '+');
    assert forall i :: 0 <= i < |level| ==> level[i] != '/';
    if '#' in level {
      var k :| 0 <= k < |level| && level[k] == '#';
      if WildcardsStandard(level) {
        assert level == "#";
      }
    }
    assert [level][0] == level;
  }

  lemma LevelsCons(level: string, rest: seq<string>)
    requires rest != []
    ensures LevelsStandard([level] + rest) <==>
              '#' !in level && ('+' in level ==> level == "+") && LevelsStandard(rest)
  {
    var all := [level] + rest;
    assert forall i :: 0 <= i < |rest| ==> all[i + 1] == rest[i];
    assert all[0] == level;
    if LevelsStandard(all) {
      forall i | 0 <= i < |rest| ensures '#' in rest[i] ==> rest[i] == "#" && i == |rest| - 1
                                 ensures '+' in rest[i] ==> rest[i] == "+" {
        assert all[i + 1] == rest[i];
      }
    }
    if '#' !in level && ('+' in level ==> level == "+") && LevelsStandard(rest) {
      forall i | 0 <= i < |all| ensures '#' in all[i] ==> all[i] == "#" && i == |all| - 1
                                ensures '+' in all[i] ==> all[i] == "+" {
        if i > 0 { assert all[i] == rest[i - 1]; }
      }
    }
  }

  lemma {:induction false} JoinStandard(levels: seq<string>)
    requires levels != []
    requires forall l :: l in levels ==> '/' !in l
    ensures WildcardsStandard(Join(levels, '/')) <==> LevelsStandard(levels)
  {
    if |levels| == 1 {
      StandardOne(levels[0]);
      assert levels == [levels[0]];
    } else {
      JoinStandard(levels[1..]);
      assert levels == [levels[0]] + levels[1..];
      StandardCons(levels[0], Join(levels[1..], '/'));
      LevelsCons(levels[0], levels[1..]);
      assert Join(levels, '/') == levels[0] + "/" + Join(levels[1..], '/');
    }
  }

  /** The split-based wildcard check accepts exactly the filters that satisfy the
      character rules of the standard. */
  lemma WildcardCheckIsTheStandard(topic: string)
    ensures LevelsProblem(Split(topic, '/'), 0).None? <==> WildcardsStandard(topic)
  {
    var levels := Split(topic, '/');
    JoinSplit(topic, '/');
    JoinStandard(levels);
    LevelsProblemMeans(levels, 0);
  }

  /** What an accepted topic looks like on its characters. */
  lemma AcceptedTopic(utf8: string -> bool, topic: string)
    ensures TopicProblem(utf8, topic).None? <==>
              && topic != "" && topic[0] != '$' && utf8(topic)
              && (forall c :: c in topic ==> !IsControl(c))
              && TrimSpace(topic) == topic
              && WildcardsStandard(topic)
  {
    WildcardCheckIsTheStandard(topic);
    if topic != "" { assert topic[..1] == [topic[0]]; }
  }

  // ----------------------------------------------------------------- matching

  predicate LevelsMatch(filter: seq<string>, topic: seq<string>) {
    if filter == [] then topic == []
    else if filter[0] == "#" then true
    else topic != [] && (filter[0] == "+" || filter[0] == topic[0]) && LevelsMatch(filter[1..], topic[1..])
  }

  /** A topic filter matches a topic name: level by level, except that a filter
      beginning with a wildcard never matches a name beginning with $ (section 4.7.2
      of OASIS MQTT Version 5.0). */
  predicate Matches(filter: string, topic: string) {
    && !(filter != "" && (filter[0] == '#' || filter[0] == '+') && topic != "" && topic[0] == '$')
    && LevelsMatch(Split(filter, '/'), Split(topic, '/'))
  }

  lemma FirstLevel(s: string)
    requires s != "" && s[0] != '/'
    ensures Split(s, '/')[0] != "" && Split(s, '/')[0][0] == s[0]
  {
  }

  /** No filter the renderer accepts reaches a topic of the broker's own. */
  lemma AcceptedNeverReachesDollar(utf8: string -> bool, filter: string, topic: string)
    requires TopicProblem(utf8, filter).None?
    requires topic != "" && topic[0] == '$'
    ensures !Matches(filter, topic)
  {
    AcceptedTopic(utf8, filter);
    FirstLevel(topic);
    if filter[0] != '/' { FirstLevel(filter); }
  }
}
