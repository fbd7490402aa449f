/** The exact subjects an agent's NATS credential admits, token by token: internal/platform/agent_nats_policy.go. */
module NatsGrants {
  import opened Wrappers
  import opened Strings
  import opened NatsSubjects

  ghost predicate MayPublish(p: Permissions, subject: string) {
    exists pattern <- p.publish :: Matches(pattern, subject)
  }

  ghost predicate MaySubscribe(p: Permissions, subject: string) {
    exists pattern <- p.subscribe :: Matches(pattern, subject)
  }

  /** What may follow the agent's own prefix in a published subject; `tunnel` subjects name a session. */
  predicate PublishTail(tail: seq<string>) {
    || tail == ["heartbeat"] || tail == ["metrics"] || tail == ["events"] || tail == ["ack"] || tail == ["result"]
    || tail == ["script", "result"] || tail == ["software", "result"]
    || IsTunnel(tail, "frame") || IsTunnel(tail, "ctrl")
  }

  predicate SubscribeTail(tail: seq<string>) {
    tail == ["result", "ack"] || IsTunnel(tail, "input") || IsTunnel(tail, "ctrl")
  }

  predicate IsTunnel(tail: seq<string>, last: string) {
    |tail| == 3 && tail[0] == "tunnel" && tail[1] != "" && tail[2] == last
  }

  // ---------------------------------------------------------------- matching

  lemma {:induction false} MatchAfterLiterals(front: seq<string>, back: seq<string>, subject: seq<string>)
    requires forall token <- front :: token != "*" && token != ">"
    ensures TokensMatch(front + back, subject) <==> front <= subject && TokensMatch(back, subject[|front|..])
  {
    if front == [] {
      assert front + back == back && subject[0..] == subject;
    } else {
      assert (front + back)[1..] == front[1..] + back && (front + back)[0] == front[0];
      assert front[0] in front && forall token <- front[1..] :: token in front;
      if subject != [] {
        MatchAfterLiterals(front[1..], back, subject[1..]);
        assert front == [front[0]] + front[1..] && subject == [subject[0]] + subject[1..];
        if front <= subject {
          assert subject[1..][|front| - 1..] == subject[|front|..];
        }
      }
    }
  }

  predicate Word(w: string) {
    '.' !in w && w != "*" && w != ">"
  }

  lemma LiteralsMatch(words: seq<string>, subject: seq<string>)
    requires forall w <- words :: Word(w)
    ensures TokensMatch(words, subject) <==> subject == words
  {
    MatchAfterLiterals(words, [], subject);
    assert words + [] == words;
    assert words <= subject && subject[|words|..] == [] <==> subject == words;
  }

  lemma OneWord(w: string, subject: seq<string>)
    requires Word(w)
    ensures TokensMatch(Split(w, '.'), subject) <==> subject == [w]
  {
    SplitPiece(w, '.');
    LiteralsMatch([w], subject);
  }

  lemma TwoWords(w: string, v: string, subject: seq<string>)
    requires Word(w) && Word(v)
    ensures TokensMatch(Split(w + ['.'] + v, '.'), subject) <==> subject == [w, v]
  {
    SplitCons(w, v, '.');
    SplitPiece(v, '.');
    assert [w] + [v] == [w, v];
    LiteralsMatch([w, v], subject);
  }

  lemma TunnelWords(v: string, subject: seq<string>)
    requires Word(v)
    ensures TokensMatch(Split("tunnel" + ['.'] + ("*" + ['.'] + v), '.'), subject) <==> IsTunnel(subject, v)
  {
    SplitCons("tunnel", "*" + ['.'] + v, '.');
    SplitCons("*", v, '.');
    SplitPiece(v, '.');
    assert ["tunnel"] + (["*"] + [v]) == ["tunnel"] + ["*", v];
    assert "tunnel" != "*" && "tunnel" != ">" by {
      assert |"tunnel"| == 6;
    }
    MatchAfterLiterals(["tunnel"], ["*", v], subject);
    if ["tunnel"] <= subject {
      StarThenWord(v, subject[1..]);
    }
  }

  lemma StarThenWord(v: string, rest: seq<string>)
    requires Word(v)
    ensures TokensMatch(["*", v], rest) <==> |rest| == 2 && rest[0] != "" && rest[1] == v
  {
    assert ["*", v][1..] == [v];
    if rest != [] {
      LiteralsMatch([v], rest[1..]);
    }
  }

  // ---------------------------------------------------------------- the two suffix lists

  ghost predicate SomeSuffix(suffixes: seq<string>, tail: seq<string>) {
    exists k :: 0 <= k < |suffixes| && SuffixAt(suffixes, k, tail)
  }

  predicate SuffixAt(suffixes: seq<string>, k: nat, tail: seq<string>)
    requires k < |suffixes|
  {
    TokensMatch(Split(suffixes[k], '.'), tail)
  }

  lemma WordSuffix(suffixes: seq<string>, k: nat, w: string, tail: seq<string>)
    requires k < |suffixes| && suffixes[k] == w && Word(w)
    ensures SuffixAt(suffixes, k, tail) <==> tail == [w]
  {
    OneWord(w, tail);
  }

  lemma PairSuffix(suffixes: seq<string>, k: nat, w: string, v: string, tail: seq<string>)
    requires k < |suffixes| && suffixes[k] == w + (['.'] + v) && Word(w) && Word(v)
    ensures SuffixAt(suffixes, k, tail) <==> tail == [w, v]
  {
    assert w + (['.'] + v) == w + ['.'] + v;
    TwoWords(w, v, tail);
  }

  lemma TunnelSuffix(suffixes: seq<string>, k: nat, v: string, tail: seq<string>)
    requires k < |suffixes| && suffixes[k] == "tunnel" + ['.'] + ("*" + ['.'] + v) && Word(v)
    ensures SuffixAt(suffixes, k, tail) <==> IsTunnel(tail, v)
  {
    TunnelWords(v, tail);
  }

  lemma PublishHeartbeat(tail: seq<string>)
    ensures SuffixAt(PUBLISH, 0, tail) <==> tail == ["heartbeat"]
  {
    WordSuffix(PUBLISH, 0, "heartbeat", tail);
  }

  lemma PublishMetrics(tail: seq<string>)
    ensures SuffixAt(PUBLISH, 1, tail) <==> tail == ["metrics"]
  {
    WordSuffix(PUBLISH, 1, "metrics", tail);
  }

  lemma PublishEvents(tail: seq<string>)
    ensures SuffixAt(PUBLISH, 2, tail) <==> tail == ["events"]
  {
    WordSuffix(PUBLISH, 2, "events", tail);
  }

  lemma PublishAck(tail: seq<string>)
    ensures SuffixAt(PUBLISH, 3, tail) <==> tail == ["ack"]
  {
    WordSuffix(PUBLISH, 3, "ack", tail);
  }

  lemma PublishResult(tail: seq<string>)
    ensures SuffixAt(PUBLISH, 4, tail) <==> tail == ["result"]
  {
    WordSuffix(PUBLISH, 4, "result", tail);
  }

  lemma PublishScript(tail: seq<string>)
    ensures SuffixAt(PUBLISH, 5, tail) <==> tail == ["script", "result"]
  {
    JoinPublishScript();
    PairSuffix(PUBLISH, 5, "script", "result", tail);
  }

  lemma JoinPublishScript()
    ensures PUBLISH[5] == "script" + (['.'] + "result") && Word("script") && Word("result")
  {
  }

  lemma PublishSoftware(tail: seq<string>)
    ensures SuffixAt(PUBLISH, 6, tail) <==> tail == ["software", "result"]
  {
    JoinPublishSoftware();
    PairSuffix(PUBLISH, 6, "software", "result", tail);
  }

  lemma JoinPublishSoftware()
    ensures PUBLISH[6] == "software" + (['.'] + "result") && Word("software") && Word("result")
  {
  }

  lemma PublishFrame(tail: seq<string>)
    ensures SuffixAt(PUBLISH, 7, tail) <==> IsTunnel(tail, "frame")
  {
    assert "tunnel.*.frame" == "tunnel" + ['.'] + ("*" + ['.'] + "frame");
    TunnelSuffix(PUBLISH, 7, "frame", tail);
  }

  lemma PublishCtrl(tail: seq<string>)
    ensures SuffixAt(PUBLISH, 8, tail) <==> IsTunnel(tail, "ctrl")
  {
    assert "tunnel.*.ctrl" == "tunnel" + ['.'] + ("*" + ['.'] + "ctrl");
    TunnelSuffix(PUBLISH, 8, "ctrl", tail);
  }

  lemma OneOfNine(suffixes: seq<string>, tail: seq<string>)
    requires |suffixes| == 9
    ensures SomeSuffix(suffixes, tail) <==>
            || SuffixAt(suffixes, 0, tail) || SuffixAt(suffixes, 1, tail) || SuffixAt(suffixes, 2, tail)
            || SuffixAt(suffixes, 3, tail) || SuffixAt(suffixes, 4, tail) || SuffixAt(suffixes, 5, tail)
            || SuffixAt(suffixes, 6, tail) || SuffixAt(suffixes, 7, tail) || SuffixAt(suffixes, 8, tail)
  {
  }

  lemma PublishSuffixes(tail: seq<string>)
    ensures SomeSuffix(PUBLISH, tail) <==> PublishTail(tail)
  {
    OneOfNine(PUBLISH, tail);
    PublishHeartbeat(tail);
    PublishMetrics(tail);
    PublishEvents(tail);
    PublishAck(tail);
    PublishResult(tail);
    PublishScript(tail);
    PublishSoftware(tail);
    PublishFrame(tail);
    PublishCtrl(tail);
  }

  lemma OneOfThree(suffixes: seq<string>, tail: seq<string>)
    requires |suffixes| == 3
    ensures SomeSuffix(suffixes, tail) <==>
            SuffixAt(suffixes, 0, tail) || SuffixAt(suffixes, 1, tail) || SuffixAt(suffixes, 2, tail)
  {
  }

  lemma SubscribeAck(tail: seq<string>)
    ensures SuffixAt(SUBSCRIBE, 0, tail) <==> tail == ["result", "ack"]
  {
    JoinSubscribeAck();
    PairSuffix(SUBSCRIBE, 0, "result", "ack", tail);
  }

  lemma JoinSubscribeAck()
    ensures SUBSCRIBE[0] == "result" + (['.'] + "ack") && Word("result") && Word("ack")
  {
  }

  lemma SubscribeInput(tail: seq<string>)
    ensures SuffixAt(SUBSCRIBE, 1, tail) <==> IsTunnel(tail, "input")
  {
    assert "tunnel.*.input" == "tunnel" + ['.'] + ("*" + ['.'] + "input");
    TunnelSuffix(SUBSCRIBE, 1, "input", tail);
  }

  lemma SubscribeCtrl(tail: seq<string>)
    ensures SuffixAt(SUBSCRIBE, 2, tail) <==> IsTunnel(tail, "ctrl")
  {
    assert "tunnel.*.ctrl" == "tunnel" + ['.'] + ("*" + ['.'] + "ctrl");
    TunnelSuffix(SUBSCRIBE, 2, "ctrl", tail);
  }

  lemma SubscribeSuffixes(tail: seq<string>)
    ensures SomeSuffix(SUBSCRIBE, tail) <==> SubscribeTail(tail)
  {
    OneOfThree(SUBSCRIBE, tail);
    SubscribeAck(tail);
    SubscribeInput(tail);
    SubscribeCtrl(tail);
  }

  // ---------------------------------------------------------------- whole subjects

  lemma OwnWords(tenant: string, kind: string, agent: string)
    requires ValidComponent(tenant) && kind in {"agent", "cmd"} && ValidComponent(agent)
    ensures forall token <- ["tenant", tenant, kind, agent] :: Word(token)
  {
    ValidHasNoDot(tenant);
    ValidHasNoDot(agent);
    assert |"tenant"| == 6 && |"agent"| == 5 && |"cmd"| == 3 && |"*"| == 1 && |">"| == 1;
  }

  lemma BelowExactly(tenant: string, agent: string, suffixes: seq<string>, subject: string)
    requires ValidComponent(tenant) && ValidComponent(agent)
    ensures (exists pattern <- Below(Stem(tenant, "agent", agent), suffixes) :: Matches(pattern, subject)) <==>
            var tokens, own := Split(subject, '.'), ["tenant", tenant, "agent", agent];
            own <= tokens && SomeSuffix(suffixes, tokens[4..])
  {
    var stem, tokens, own := Stem(tenant, "agent", agent), Split(subject, '.'), ["tenant", tenant, "agent", agent];
    var patterns := Below(stem, suffixes);
    OwnWords(tenant, "agent", agent);
    forall k | 0 <= k < |suffixes|
      ensures patterns[k] in patterns && (Matches(patterns[k], subject) <==> own <= tokens && SuffixAt(suffixes, k, tokens[4..]))
    {
      SplitStem(tenant, "agent", agent, suffixes[k]);
      MatchAfterLiterals(own, Split(suffixes[k], '.'), tokens);
    }
  }

  /** A credential is issued exactly for two non-empty components without dots, wildcards, angle brackets or white space. */
  lemma GrantedExactly(tenant: string, agent: string)
    ensures BuildPermissions(tenant, agent).Some? <==>
            && tenant != "" && agent != ""
            && forall c <- tenant + agent ::
                 c != '.' && c != '*' && c != '>' && c != '<' && c != ' ' && c != '\t' && c != '\r' && c != '\n'
  {
    forall c ensures c in tenant + agent <==> c in tenant || c in agent {
    }
    assert forall c: char :: c in METACHARACTERS <==>
             c == '.' || c == '*' || c == '>' || c == '<' || c == ' ' || c == '\t' || c == '\r' || c == '\n';
  }

  /** An agent may publish exactly its heartbeat, metrics, events, ack and the three results, and the frame and ctrl subjects
      of any tunnel session, all under its own prefix. */
  lemma PublishExactly(tenant: string, agent: string, subject: string)
    requires BuildPermissions(tenant, agent).Some?
    ensures MayPublish(BuildPermissions(tenant, agent).value, subject) <==>
            var tokens := Split(subject, '.');
            ["tenant", tenant, "agent", agent] <= tokens && PublishTail(tokens[4..])
  {
    var tokens := Split(subject, '.');
    BelowExactly(tenant, agent, PUBLISH, subject);
    if |tokens| >= 4 {
      PublishSuffixes(tokens[4..]);
    }
  }

  lemma CommandsExactly(tenant: string, agent: string, subject: string)
    requires ValidComponent(tenant) && ValidComponent(agent)
    ensures Matches(Stem(tenant, "cmd", agent), subject) <==> Split(subject, '.') == ["tenant", tenant, "cmd", agent]
    ensures Matches(Stem(tenant, "cmd", agent) + ['.'] + "cancel", subject) <==>
            Split(subject, '.') == ["tenant", tenant, "cmd", agent, "cancel"]
  {
    var own := ["tenant", tenant, "cmd", agent];
    SplitStem(tenant, "cmd", agent, "cancel");
    OwnWords(tenant, "cmd", agent);
    SplitPiece("cancel", '.');
    LiteralsMatch(own, Split(subject, '.'));
    assert own + ["cancel"] == ["tenant", tenant, "cmd", agent, "cancel"];
    assert Word("cancel") by {
      assert |"cancel"| == 6;
    }
    LiteralsMatch(own + ["cancel"], Split(subject, '.'));
  }

  /** It may subscribe exactly to its commands and their cancellations, its result acknowledgements, and the input and ctrl
      subjects of any tunnel session. */
  lemma SubscribeExactly(tenant: string, agent: string, subject: string)
    requires BuildPermissions(tenant, agent).Some?
    ensures MaySubscribe(BuildPermissions(tenant, agent).value, subject) <==>
            var tokens := Split(subject, '.');
            || tokens == ["tenant", tenant, "cmd", agent]
            || tokens == ["tenant", tenant, "cmd", agent, "cancel"]
            || (["tenant", tenant, "agent", agent] <= tokens && SubscribeTail(tokens[4..]))
  {
    var tokens, p := Split(subject, '.'), BuildPermissions(tenant, agent).value;
    var command := Stem(tenant, "cmd", agent);
    var commands, below := [command, command + ['.'] + "cancel"], Below(Stem(tenant, "agent", agent), SUBSCRIBE);
    CommandsExactly(tenant, agent, subject);
    BelowExactly(tenant, agent, SUBSCRIBE, subject);
    if |tokens| >= 4 {
      SubscribeSuffixes(tokens[4..]);
    }
    assert p.subscribe == commands + below;
    assert forall pattern :: pattern in p.subscribe <==> pattern == command || pattern == command + ['.'] + "cancel" || pattern in below;
  }

  // ---------------------------------------------------------------- which subjects carry an identity

  lemma JoinFront(parts: seq<string>)
    requires |parts| >= 2
    ensures Join(parts, '.') == parts[0] + ['.'] + Join(parts[1..], '.')
  {
  }

  lemma JoinFour(parts: seq<string>)
    requires |parts| >= 5
    ensures Join(parts, '.') == parts[0] + ['.'] + (parts[1] + ['.'] + (parts[2] + ['.'] + (parts[3] + ['.'] + Join(parts[4..], '.'))))
  {
    JoinFront(parts);
    JoinFront(parts[1..]);
    JoinFront(parts[2..]);
    JoinFront(parts[3..]);
    assert parts[1..][1..] == parts[2..] && parts[2..][1..] == parts[3..] && parts[3..][1..] == parts[4..];
  }

  /** The parser finds an identity exactly in the subjects below the prefix of that identity. */
  lemma ParsedExactly(subject: string, tenant: string, agent: string)
    ensures ParseIdentity(Split(subject, '.')) == Some((tenant, agent)) <==>
            && tenant != "" && agent != "" && '.' !in tenant && '.' !in agent
            && exists rest :: subject == Stem(tenant, "agent", agent) + ['.'] + rest
  {
    var parts := Split(subject, '.');
    if ParseIdentity(parts) == Some((tenant, agent)) {
      JoinSplit(subject, '.');
      JoinFour(parts);
      assert parts[1] in parts && parts[3] in parts;
      StemExtended(tenant, "agent", agent, Join(parts[4..], '.'));
    }
    if rest :| tenant != "" && agent != "" && '.' !in tenant && '.' !in agent
               && subject == Stem(tenant, "agent", agent) + ['.'] + rest {
      StemExtended(tenant, "agent", agent, rest);
      SplitCons(agent, rest, '.');
      SplitThree(tenant, "agent", agent + ['.'] + rest);
    }
  }
}
