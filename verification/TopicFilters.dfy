/** The node's subscriptions against its own topics, with the matching rule of section 4.7 of MQTT 3.1.1. */
module TopicFilters {
  import opened TopicMap

  /** The levels of a topic name or filter. */
  function Levels(s: string): (r: seq<string>)
    ensures |r| > 0
  {
    if |s| == 0 then [""]
    else
      var rest := Levels(s[1..]);
      if s[0] == '/' then [""] + rest else [[s[0]] + rest[0]] + rest[1..]
  }

  /** Level by level: "#" in last place takes all the rest, "+" takes any one level, else the levels are equal. */
  predicate MatchLevels(filter: seq<string>, topic: seq<string>) {
    if filter == ["#"] then true
    else if |filter| == 0 then |topic| == 0
    else |topic| > 0 && (filter[0] == "+" || filter[0] == topic[0]) && MatchLevels(filter[1..], topic[1..])
  }

  predicate Matches(filter: string, topic: string) { MatchLevels(Levels(filter), Levels(topic)) }

  lemma {:induction false} LevelsOfJoin(a: string, b: string)
    ensures Levels(a + "/" + b) == Levels(a) + Levels(b)
    decreases |a|
  {
    var s := a + "/" + b;
    if |a| == 0 {
      assert s[1..] == b;
    } else {
      assert s[1..] == a[1..] + "/" + b;
      LevelsOfJoin(a[1..], b);
    }
  }

  lemma {:induction false} LevelsOfWord(s: string)
    requires '/' !in s
    ensures Levels(s) == [s]
    decreases |s|
  {
    if |s| > 0 {
      LevelsOfWord(s[1..]);
      assert s == [s[0]] + s[1..];
    }
  }

  lemma WordThen(word: string, rest: string)
    requires '/' !in word
    ensures Levels(word + "/" + rest) == [word] + Levels(rest)
  {
    LevelsOfJoin(word, rest);
    LevelsOfWord(word);
  }

  lemma ThreeWordsThen(a: string, b: string, c: string, d: string)
    requires '/' !in a && '/' !in b && '/' !in c && '/' !in d
    ensures Levels(a + "/" + (b + "/" + (c + "/" + d))) == [a, b, c, d]
  {
    WordThen(a, b + "/" + (c + "/" + d));
    WordThen(b, c + "/" + d);
    WordThen(c, d);
    LevelsOfWord(d);
  }

  lemma FirstLevelStarts(s: string)
    requires |Levels(s)[0]| > 0
    ensures |s| > 0 && Levels(s)[0][0] == s[0]
  {
  }

  /** An equal front part is irrelevant to matching, even when it contains wildcard characters. */
  lemma {:induction false} CommonFront(front: seq<string>, filter: seq<string>, topic: seq<string>)
    requires |filter| > 0
    ensures MatchLevels(front + filter, front + topic) == MatchLevels(filter, topic)
    decreases |front|
  {
    if |front| == 0 {
      assert front + filter == filter && front + topic == topic;
    } else {
      assert (front + filter)[1..] == front[1..] + filter;
      assert (front + topic)[1..] == front[1..] + topic;
      CommonFront(front[1..], filter, topic);
    }
  }

  function NodeFilter(node: string): string { CommandTopic(node, "+") }

  const BROADCAST_FILTER := BroadcastTopic("+")

  predicate IsCommandName(name: string) { name == PING || name == REBOOT || name == CONFIG || name == CAPTURE }

  lemma NamesHaveNoSlash(name: string)
    requires IsCommandName(name) || name == "+"
    ensures '/' !in name
  {
  }

  lemma CommandLevels(node: string, name: string)
    requires '/' !in name
    ensures Levels(CommandTopic(node, name)) == Levels(NodeBase(node)) + ["cmd", name]
  {
    LevelsOfJoin(NodeBase(node), "cmd/" + name);
    assert "cmd" + "/" + name == "cmd/" + name;
    WordThen("cmd", name);
    LevelsOfWord(name);
  }

  lemma BroadcastLevels(name: string)
    requires '/' !in name
    ensures Levels(BroadcastTopic(name)) == ["vision", "broadcast", "cmd", name]
  {
    assert BroadcastTopic(name) == "vision" + "/" + ("broadcast" + "/" + ("cmd" + "/" + name));
    ThreeWordsThen("vision", "broadcast", "cmd", name);
  }

  /** Every topic one of the four predicates accepts is covered by a subscription. */
  lemma AcceptedIsSubscribed(node: string, name: string, topic: string)
    requires IsCommandName(name) && IsCommand(node, name, topic)
    ensures Matches(NodeFilter(node), topic) || Matches(BROADCAST_FILTER, topic)
  {
    NamesHaveNoSlash(name);
    if topic == CommandTopic(node, name) {
      CommandLevels(node, name);
      CommandLevels(node, "+");
      CommonFront(Levels(NodeBase(node)), ["cmd", "+"], ["cmd", name]);
      OneLevel(["cmd"], name);
    } else {
      BroadcastLevels(name);
      BroadcastLevels("+");
      CommonFront(["vision", "broadcast"], ["cmd", "+"], ["cmd", name]);
      assert ["vision", "broadcast"] + ["cmd", "+"] == Levels(BROADCAST_FILTER);
      assert ["vision", "broadcast"] + ["cmd", name] == Levels(topic);
      OneLevel(["cmd"], name);
    }
  }

  lemma OneLevel(front: seq<string>, name: string)
    ensures MatchLevels(front + ["+"], front + [name])
  {
    CommonFront(front, ["+"], [name]);
    assert MatchLevels(["+"][1..], [name][1..]);
  }

  lemma SameBaseDifferentName(node: string, a: string, b: string)
    requires CommandTopic(node, a) == CommandTopic(node, b)
    ensures a == b
  {
    var base := NodeBase(node) + "/" + "cmd/";
    assert CommandTopic(node, a) == base + a && CommandTopic(node, b) == base + b;
    assert (base + a)[|base|..] == a && (base + b)[|base|..] == b;
  }

  lemma NodeIsNotBroadcast(node: string, a: string, b: string)
    ensures CommandTopic(node, a) != BroadcastTopic(b)
  {
    assert CommandTopic(node, a)[7] == 'n';
    assert BroadcastTopic(b)[7] == 'b';
  }

  /** At most one command predicate accepts a topic, so the order of the dispatch chain does not matter. */
  lemma CommandsAreExclusive(node: string, topic: string, a: string, b: string)
    requires IsCommand(node, a, topic) && IsCommand(node, b, topic)
    ensures a == b
  {
    NodeIsNotBroadcast(node, a, b);
    NodeIsNotBroadcast(node, b, a);
    if topic == CommandTopic(node, a) {
      SameBaseDifferentName(node, a, b);
    } else {
      var base := "vision/broadcast/cmd/";
      assert (base + a)[|base|..] == a && (base + b)[|base|..] == b;
    }
  }

  lemma SuffixStart(t: Topic)
    ensures |Suffix(t)| > 0 && Suffix(t)[0] != 'c'
  {
  }

  lemma NotUnderCommands(node: string, t: Topic)
    ensures !Matches(NodeFilter(node), Render(node, t))
  {
    CommandLevels(node, "+");
    LevelsOfJoin(NodeBase(node), Suffix(t));
    CommonFront(Levels(NodeBase(node)), ["cmd", "+"], Levels(Suffix(t)));
    SuffixStart(t);
    if Levels(Suffix(t))[0] == "cmd" { FirstLevelStarts(Suffix(t)); }
  }

  /** A filter and a topic that part at their second level. */
  lemma SecondLevelDiffers(word: string, second: string, tail: seq<string>, rest: string)
    requires '/' !in word && |second| > 0 && second != "+" && |tail| > 0 && |rest| > 0 && rest[0] != second[0]
    ensures !MatchLevels([word, second] + tail, Levels(word + "/" + rest))
  {
    WordThen(word, rest);
    var filter := [second] + tail;
    assert [word, second] + tail == [word] + filter;
    CommonFront([word], filter, Levels(rest));
    if Levels(rest)[0] == second { FirstLevelStarts(rest); }
  }

  lemma RenderBelowVision(node: string, t: Topic) returns (rest: string)
    ensures Render(node, t) == "vision" + "/" + rest && |rest| > 0 && rest[0] == 'n'
  {
    rest := "nodes/" + (node + "/" + Suffix(t));
  }

  lemma NotUnderBroadcast(node: string, t: Topic)
    ensures !Matches(BROADCAST_FILTER, Render(node, t))
  {
    var rest := RenderBelowVision(node, t);
    var tail := ["cmd", "+"];
    BroadcastLevels("+");
    SecondLevelDiffers("vision", "broadcast", tail, rest);
    assert Levels(BROADCAST_FILTER) == ["vision", "broadcast"] + tail;
  }

  /** Nothing the node publishes, for any request or capture ID, comes back to it as a command. */
  lemma NoSelfCommand(node: string, t: Topic)
    ensures !Matches(NodeFilter(node), Render(node, t)) && !Matches(BROADCAST_FILTER, Render(node, t))
    ensures forall name | IsCommandName(name) :: !IsCommand(node, name, Render(node, t))
  {
    NotUnderCommands(node, t);
    NotUnderBroadcast(node, t);
    forall name | IsCommandName(name) ensures !IsCommand(node, name, Render(node, t)) {
      if IsCommand(node, name, Render(node, t)) { AcceptedIsSubscribed(node, name, Render(node, t)); }
    }
  }
}
