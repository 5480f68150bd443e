/** The message subjects: printed by the sharding package and the domain engine, parsed back by the engine,
    matched by the streamer's subscription. `crc` stands for the CRC-32 checksum. */
module Subjects {
  import opened Options
  import opened Text

  const SHARD_COUNT := 1024

  function GetShardID(crc: string -> nat, entityID: string): (shard: nat)
    ensures shard == crc(entityID) % 1024 < 1024
  {
    crc(entityID) % SHARD_COUNT
  }

  /** One subject token, a dot, and the rest of the subject. */
  function Dot(token: string, rest: string): string {
    token + ['.'] + rest
  }

  /** app.command.{shard}.{type}.{id} */
  function GetSubject(crc: string -> nat, entityType: string, entityID: string): string {
    Dot("app", Dot("command", Dot(Decimal(GetShardID(crc, entityID)), Dot(entityType, entityID))))
  }

  function ShardFromSubject(crc: string -> nat, entityID: string, subject: string): int {
    var parts := Split(subject, '.');
    if |parts| > 2 && Atoi(parts[2]).Some? then Atoi(parts[2]).value else GetShardID(crc, entityID)
  }

  /** app.event.{shard}.group.{id} */
  function EventSubject(shard: int, groupID: string): string {
    Dot("app", Dot("event", Dot(Itoa(shard), Dot("group", groupID))))
  }

  /** app.event.*.group.{id} */
  function GroupEventSubject(groupID: string): string {
    Dot("app", Dot("event", Dot("*", Dot("group", groupID))))
  }

  lemma DotsAreText(a: string, b: string, c: string, d: string, e: string)
    ensures Dot(a, Dot(b, Dot(c, Dot(d, e)))) == (a + "." + b + ".") + c + "." + d + "." + e
  {
  }

  /** The subjects as text. */
  lemma CommandSubjectText(crc: string -> nat, entityType: string, entityID: string)
    ensures GetSubject(crc, entityType, entityID)
            == "app.command." + Decimal(GetShardID(crc, entityID)) + "." + entityType + "." + entityID
  {
    DotsAreText("app", "command", Decimal(GetShardID(crc, entityID)), entityType, entityID);
    assert "app" + "." + "command" + "." == "app.command.";
  }

  lemma EventSubjectText(shard: int, groupID: string)
    ensures EventSubject(shard, groupID) == "app.event." + Itoa(shard) + "." + "group" + "." + groupID
  {
    DotsAreText("app", "event", Itoa(shard), "group", groupID);
    assert "app" + "." + "event" + "." == "app.event.";
  }

  lemma GroupEventSubjectText(groupID: string)
    ensures GroupEventSubject(groupID) == "app.event." + "*" + "." + "group" + "." + groupID
  {
    DotsAreText("app", "event", "*", "group", groupID);
    assert "app" + "." + "event" + "." == "app.event.";
  }

  /** A subject without a number in its third token gives the group's own shard. */
  lemma ShardFallback(crc: string -> nat, entityID: string, subject: string)
    requires |Split(subject, '.')| <= 2 || Atoi(Split(subject, '.')[2]).None?
    ensures ShardFromSubject(crc, entityID, subject) == crc(entityID) % 1024
  {
  }

  // ---------- parsing what was printed ----------

  /** Three dot-free tokens in front of anything. */
  lemma SplitThree(a: string, b: string, c: string, rest: string)
    requires '.' !in a && '.' !in b && '.' !in c
    ensures Split(Dot(a, Dot(b, Dot(c, rest))), '.') == [a] + ([b] + ([c] + Split(rest, '.')))
  {
    SplitHead(a, '.', Dot(b, Dot(c, rest)));
    SplitHead(b, '.', Dot(c, rest));
    SplitHead(c, '.', rest);
  }

  lemma DecimalHasNoDot(n: nat)
    ensures '.' !in Decimal(n)
  {
    assert !IsDigit('.');
  }

  /** The shard printed into a command subject is the one parsed out of it, whatever dots the entity id holds. */
  lemma ShardRoundTrip(crc: string -> nat, entityType: string, entityID: string, fallback: string)
    ensures ShardFromSubject(crc, fallback, GetSubject(crc, entityType, entityID)) == GetShardID(crc, entityID)
  {
    var shard := GetShardID(crc, entityID);
    DecimalHasNoDot(shard);
    SplitThree("app", "command", Decimal(shard), Dot(entityType, entityID));
    AtoiItoa(shard);
  }

  // ---------- matching ----------

  /** NATS token matching: `*` takes one token, a final `>` takes one or more, any other token itself. */
  predicate Matches(pattern: seq<string>, subject: seq<string>) {
    if pattern == [] then subject == []
    else if pattern == [">"] then subject != []
    else subject != [] && (pattern[0] == "*" || pattern[0] == subject[0]) && Matches(pattern[1..], subject[1..])
  }

  predicate SubjectMatches(pattern: string, subject: string) {
    Matches(Split(pattern, '.'), Split(subject, '.'))
  }

  /** A token of the group id that a subscription would read as a wildcard. */
  predicate HasWildcard(tokens: seq<string>) {
    "*" in tokens || (tokens != [] && tokens[|tokens| - 1] == ">")
  }

  /** Which subjects a pattern takes: as many tokens, each taken one by one; or, after a last `>`, at least one more. */
  lemma {:induction false} MatchesExactly(pattern: seq<string>, subject: seq<string>)
    ensures Matches(pattern, subject) <==>
              var n := if pattern != [] && pattern[|pattern| - 1] == ">" then |pattern| - 1 else |pattern|;
              && (if n < |pattern| then |subject| > n else |subject| == n)
              && forall i :: 0 <= i < n ==> pattern[i] == "*" || pattern[i] == subject[i]
  {
    if pattern != [] && pattern != [">"] && subject != [] {
      MatchesExactly(pattern[1..], subject[1..]);
      var n := if pattern[|pattern| - 1] == ">" then |pattern| - 1 else |pattern|;
      assert |pattern| > 1 ==> pattern[1..][|pattern| - 2] == pattern[|pattern| - 1];
      assert forall i :: 1 <= i < |pattern| ==> pattern[i] == pattern[1..][i - 1];
      assert forall i :: 1 <= i < |subject| ==> subject[i] == subject[1..][i - 1];
    }
  }

  lemma {:induction false} LiteralMatch(pattern: seq<string>, subject: seq<string>)
    requires !HasWildcard(pattern)
    ensures Matches(pattern, subject) <==> pattern == subject
  {
    if pattern != [] {
      assert pattern != [">"] && pattern[0] != "*";
      assert forall t :: t in pattern[1..] ==> t in pattern;
      if subject != [] {
        LiteralMatch(pattern[1..], subject[1..]);
        assert pattern == [pattern[0]] + pattern[1..] && subject == [subject[0]] + subject[1..];
      }
    }
  }

  lemma {:induction false} SelfMatch(tokens: seq<string>, i: nat)
    requires i < |tokens| && (tokens[i] == "*" || (i == |tokens| - 1 && tokens[i] == ">"))
    ensures Matches(tokens, tokens[i := "x"])
  {
    var other := tokens[i := "x"];
    if tokens != [">"] {
      if i > 0 {
        SelfMatch(tokens[1..], i - 1);
        assert other[1..] == tokens[1..][i - 1 := "x"];
      } else {
        assert other[1..] == tokens[1..];
        ReflexiveMatch(tokens[1..]);
      }
    }
  }

  lemma {:induction false} ReflexiveMatch(tokens: seq<string>)
    ensures Matches(tokens, tokens)
  {
    if tokens != [] {
      ReflexiveMatch(tokens[1..]);
    }
  }

  lemma PatternTokens(groupID: string)
    ensures Split(GroupEventSubject(groupID), '.')
            == ["app"] + (["event"] + (["*"] + (["group"] + Split(groupID, '.'))))
  {
    SplitThree("app", "event", "*", Dot("group", groupID));
    SplitHead("group", '.', groupID);
  }

  lemma EventTokens(shard: int, groupID: string)
    ensures Split(EventSubject(shard, groupID), '.')
            == ["app"] + (["event"] + ([Itoa(shard)] + (["group"] + Split(groupID, '.'))))
  {
    SplitThree("app", "event", Itoa(shard), Dot("group", groupID));
    SplitHead("group", '.', groupID);
  }

  lemma MatchHead(p: string, pattern: seq<string>, s: string, subject: seq<string>)
    requires pattern != []
    ensures Matches([p] + pattern, [s] + subject) <==> (p == "*" || p == s) && Matches(pattern, subject)
  {
    assert |[p] + pattern| > 1;
    assert ([p] + pattern)[1..] == pattern && ([s] + subject)[1..] == subject;
  }

  lemma SubscriptionTokens(shard: int, groupID: string, other: string)
    ensures SubjectMatches(GroupEventSubject(groupID), EventSubject(shard, other)) <==>
            Matches(Split(groupID, '.'), Split(other, '.'))
  {
    PatternTokens(groupID);
    EventTokens(shard, other);
    var g, o, n := Split(groupID, '.'), Split(other, '.'), Itoa(shard);
    MatchHead("app", ["event"] + (["*"] + (["group"] + g)), "app", ["event"] + ([n] + (["group"] + o)));
    MatchHead("event", ["*"] + (["group"] + g), "event", [n] + (["group"] + o));
    MatchHead("*", ["group"] + g, n, ["group"] + o);
    MatchHead("group", g, "group", o);
  }

  /** A group's subscription receives exactly its own group's events, whatever the shard, when and only when no token of
      the group id is a wildcard. */
  lemma SubscriptionIsExact(groupID: string)
    ensures (forall shard: int, other: string ::
               SubjectMatches(GroupEventSubject(groupID), EventSubject(shard, other)) <==> other == groupID)
            <==> !HasWildcard(Split(groupID, '.'))
  {
    var tokens := Split(groupID, '.');
    if HasWildcard(tokens) {
      var i :| 0 <= i < |tokens| && (tokens[i] == "*" || (i == |tokens| - 1 && tokens[i] == ">"));
      var others := tokens[i := "x"];
      var other := Join(others, '.');
      SplitJoin(others, '.');
      SelfMatch(tokens, i);
      SubscriptionTokens(0, groupID, other);
      assert "x"[0] == 'x' && "*"[0] == '*' && ">"[0] == '>';
      assert others != tokens;
      assert SubjectMatches(GroupEventSubject(groupID), EventSubject(0, other)) && other != groupID;
    } else {
      forall shard: int, other: string
        ensures SubjectMatches(GroupEventSubject(groupID), EventSubject(shard, other)) <==> other == groupID
      {
        SubscriptionTokens(shard, groupID, other);
        LiteralMatch(tokens, Split(other, '.'));
        JoinSplit(groupID, '.');
        JoinSplit(other, '.');
      }
    }
  }

  /** From the API's subject to the streamer: the event a command for group g leads to carries g's own shard and reaches
      the subscription of g and, among groups without wildcard tokens, no other. */
  lemma CommandReachesItsGroup(crc: string -> nat, g: string, h: string)
    requires !HasWildcard(Split(g, '.')) && !HasWildcard(Split(h, '.'))
    ensures var shard := ShardFromSubject(crc, g, GetSubject(crc, "group", g));
            && shard == GetShardID(crc, g)
            && (SubjectMatches(GroupEventSubject(h), EventSubject(shard, g)) <==> g == h)
  {
    ShardRoundTrip(crc, "group", g, g);
    SubscriptionIsExact(h);
  }

  /** The two services' own subscriptions, app.command.> and app.event.>, take every command and every event. */
  lemma ServiceSubscriptionsTakeAll(crc: string -> nat, g: string, shard: int)
    ensures SubjectMatches(Dot("app", Dot("command", ">")), GetSubject(crc, "group", g))
    ensures SubjectMatches(Dot("app", Dot("event", ">")), EventSubject(shard, g))
  {
    var d := Decimal(GetShardID(crc, g));
    DecimalHasNoDot(GetShardID(crc, g));
    SplitThree("app", "command", d, Dot("group", g));
    TakesAll("command", [d] + Split(Dot("group", g), '.'));
    EventTokens(shard, g);
    TakesAll("event", [Itoa(shard)] + (["group"] + Split(g, '.')));
  }

  lemma TakesAll(kind: string, rest: seq<string>)
    requires rest != [] && '.' !in kind
    ensures Matches(Split(Dot("app", Dot(kind, ">")), '.'), ["app"] + ([kind] + rest))
  {
    SplitHead("app", '.', Dot(kind, ">"));
    SplitHead(kind, '.', ">");
    SplitWhole(">", '.');
    MatchHead("app", [kind] + [">"], "app", [kind] + rest);
    MatchHead(kind, [">"], kind, rest);
  }
}
