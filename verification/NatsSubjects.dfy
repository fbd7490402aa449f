/**
  NATS subjects of an agent: the permissions built in internal/platform/agent_nats_policy.go and the parser in
  internal/monitoring/ingestion.go that recovers the identity from a subject.
 */
module NatsSubjects {
  import opened Wrappers
  import opened Strings

  // ---------------------------------------------------------------- building the permissions

  const METACHARACTERS := {'.', '*', '>', '<', ' ', '\t', '\r', '\n'}

  predicate ValidComponent(value: string) {
    value != "" && forall c <- value :: c !in METACHARACTERS
  }

  const PUBLISH := ["heartbeat", "metrics", "events", "ack", "result", "script.result", "software.result",
                    "tunnel.*.frame", "tunnel.*.ctrl"]

  const SUBSCRIBE := ["result.ack", "tunnel.*.input", "tunnel.*.ctrl"]

  datatype Permissions = Permissions(publish: seq<string>, subscribe: seq<string>)

  function Stem(tenant: string, kind: string, agent: string): string {
    "tenant" + ['.'] + (tenant + ['.'] + (kind + ['.'] + agent))
  }

  function Below(stem: string, suffixes: seq<string>): seq<string> {
    seq(|suffixes|, i requires 0 <= i < |suffixes| => stem + ['.'] + suffixes[i])
  }

  function BuildPermissions(tenant: string, agent: string): Option<Permissions> {
    if !ValidComponent(tenant) || !ValidComponent(agent) then None
    else
      var own := Stem(tenant, "agent", agent);
      var command := Stem(tenant, "cmd", agent);
      Some(Permissions(Below(own, PUBLISH), [command, command + ['.'] + "cancel"] + Below(own, SUBSCRIBE)))
  }

  // ---------------------------------------------------------------- what the broker matches

  predicate TokensMatch(pattern: seq<string>, subject: seq<string>) {
    if pattern == [] then subject == []
    else if pattern == [">"] then subject != []
    else
      && subject != []
      && (if pattern[0] == "*" then subject[0] != "" else pattern[0] == subject[0])
      && TokensMatch(pattern[1..], subject[1..])
  }

  predicate Matches(pattern: string, subject: string) {
    TokensMatch(Split(pattern, '.'), Split(subject, '.'))
  }

  /** Both subjects a connection may publish and those it may subscribe to. */
  ghost predicate MayUse(p: Permissions, subject: string) {
    exists pattern :: (pattern in p.publish || pattern in p.subscribe) && Matches(pattern, subject)
  }

  // ---------------------------------------------------------------- parsing a subject back

  method Tokenize(s: string, sep: char) returns (parts: seq<string>)
    ensures parts == Split(s, sep)
  {
    parts := [];
    var start := 0;
    var i := 0;
    while i < |s|
      invariant 0 <= start <= i <= |s|
      invariant sep !in s[start..i]
      invariant parts + Split(s[start..], sep) == Split(s, sep)
    {
      if s[i] == sep {
        assert s[start..] == s[start..i] + [sep] + s[i + 1..];
        SplitCons(s[start..i], s[i + 1..], sep);
        assert parts + ([s[start..i]] + Split(s[i + 1..], sep)) == parts + [s[start..i]] + Split(s[i + 1..], sep);
        parts := parts + [s[start..i]];
        start := i + 1;
      }
      i := i + 1;
    }
    assert s[start..i] == s[start..];
    SplitPiece(s[start..], sep);
    parts := parts + [s[start..]];
  }

  function ParseIdentity(parts: seq<string>): Option<(string, string)> {
    if |parts| >= 5 && parts[0] == "tenant" && parts[2] == "agent" && parts[1] != "" && parts[3] != ""
    then Some((parts[1], parts[3]))
    else None
  }

  method ExtractTenantAgent(subject: string) returns (identity: Option<(string, string)>)
    ensures identity == ParseIdentity(Split(subject, '.'))
  {
    var parts := Tokenize(subject, '.');
    if |parts| >= 5 && parts[0] == "tenant" && parts[2] == "agent" && parts[1] != "" && parts[3] != "" {
      return Some((parts[1], parts[3]));
    }
    return None;
  }

  // ---------------------------------------------------------------- building and parsing are inverse

  lemma ValidHasNoDot(value: string)
    requires ValidComponent(value)
    ensures '.' !in value && value != "*" && value != ">"
  {
    assert value[0] in value;
  }

  lemma SplitThree(tenant: string, kind: string, tail: string)
    requires '.' !in tenant && '.' !in kind
    ensures Split("tenant" + ['.'] + (tenant + ['.'] + (kind + ['.'] + tail)), '.') == ["tenant", tenant, kind] + Split(tail, '.')
  {
    SplitCons(kind, tail, '.');
    SplitCons(tenant, kind + ['.'] + tail, '.');
    SplitCons("tenant", tenant + ['.'] + (kind + ['.'] + tail), '.');
  }

  lemma StemExtended(tenant: string, kind: string, agent: string, rest: string)
    ensures Stem(tenant, kind, agent) + ['.'] + rest ==
            "tenant" + ['.'] + (tenant + ['.'] + (kind + ['.'] + (agent + ['.'] + rest)))
  {
  }

  lemma SplitStem(tenant: string, kind: string, agent: string, rest: string)
    requires ValidComponent(tenant) && '.' !in kind && ValidComponent(agent)
    ensures Split(Stem(tenant, kind, agent), '.') == ["tenant", tenant, kind, agent]
    ensures Split(Stem(tenant, kind, agent) + ['.'] + rest, '.') == ["tenant", tenant, kind, agent] + Split(rest, '.')
  {
    ValidHasNoDot(tenant);
    ValidHasNoDot(agent);
    SplitPiece(agent, '.');
    SplitThree(tenant, kind, agent);
    SplitCons(agent, rest, '.');
    SplitThree(tenant, kind, agent + ['.'] + rest);
    StemExtended(tenant, kind, agent, rest);
  }

  /** The tokens that carry the identity are literal in every pattern. */
  predicate CarriesIdentity(tokens: seq<string>, tenant: string, agent: string) {
    |tokens| >= 4 && tokens[0] == "tenant" && tokens[1] == tenant && tokens[2] in {"agent", "cmd"} && tokens[3] == agent
  }

  lemma BelowCarriesIdentity(tenant: string, agent: string, suffixes: seq<string>, pattern: string)
    requires ValidComponent(tenant) && ValidComponent(agent) && pattern in Below(Stem(tenant, "agent", agent), suffixes)
    ensures CarriesIdentity(Split(pattern, '.'), tenant, agent)
    ensures |Split(pattern, '.')| >= 5 && Split(pattern, '.')[2] == "agent"
  {
    var i :| 0 <= i < |suffixes| && pattern == Stem(tenant, "agent", agent) + ['.'] + suffixes[i];
    SplitStem(tenant, "agent", agent, suffixes[i]);
  }

  lemma CommandCarriesIdentity(tenant: string, agent: string)
    requires ValidComponent(tenant) && ValidComponent(agent)
    ensures CarriesIdentity(Split(Stem(tenant, "cmd", agent), '.'), tenant, agent)
    ensures CarriesIdentity(Split(Stem(tenant, "cmd", agent) + ['.'] + "cancel", '.'), tenant, agent)
  {
    SplitStem(tenant, "cmd", agent, "cancel");
  }

  lemma PatternCarriesIdentity(tenant: string, agent: string, pattern: string)
    requires BuildPermissions(tenant, agent).Some?
    requires var p := BuildPermissions(tenant, agent).value; pattern in p.publish || pattern in p.subscribe
    ensures CarriesIdentity(Split(pattern, '.'), tenant, agent)
    ensures pattern in BuildPermissions(tenant, agent).value.publish ==>
              |Split(pattern, '.')| >= 5 && Split(pattern, '.')[2] == "agent"
  {
    var own, command := Stem(tenant, "agent", agent), Stem(tenant, "cmd", agent);
    CommandCarriesIdentity(tenant, agent);
    if pattern in Below(own, PUBLISH) {
      BelowCarriesIdentity(tenant, agent, PUBLISH, pattern);
    } else if pattern in Below(own, SUBSCRIBE) {
      BelowCarriesIdentity(tenant, agent, SUBSCRIBE, pattern);
    } else {
      assert pattern in [command, command + ['.'] + "cancel"];
    }
  }

  /** A literal prefix of a pattern is matched literally. */
  lemma {:induction false} MatchKeepsLiterals(pattern: seq<string>, subject: seq<string>, k: nat)
    requires TokensMatch(pattern, subject) && k <= |pattern|
    requires forall i :: 0 <= i < k ==> pattern[i] != "*" && pattern[i] != ">"
    ensures k <= |subject| && forall i :: 0 <= i < k ==> subject[i] == pattern[i]
    ensures k < |pattern| ==> k < |subject|
    decreases k
  {
    if k > 0 {
      assert pattern[0] != ">";
      MatchKeepsLiterals(pattern[1..], subject[1..], k - 1);
      assert forall i :: 1 <= i < k ==> subject[i] == subject[1..][i - 1] && pattern[i] == pattern[1..][i - 1];
    }
  }

  lemma LiteralIdentity(tokens: seq<string>, tenant: string, agent: string)
    requires CarriesIdentity(tokens, tenant, agent) && ValidComponent(tenant) && ValidComponent(agent)
    ensures forall i :: 0 <= i < 4 ==> tokens[i] != "*" && tokens[i] != ">"
  {
    ValidHasNoDot(tenant);
    ValidHasNoDot(agent);
    assert |"tenant"| == 6 && |"agent"| == 5 && |"cmd"| == 3 && |"*"| == 1 && |">"| == 1;
  }

  /** Every subject an agent may publish parses back to exactly its tenant and agent. */
  lemma PublishedSubjectParsesBack(tenant: string, agent: string, pattern: string, subject: string)
    requires BuildPermissions(tenant, agent).Some? && pattern in BuildPermissions(tenant, agent).value.publish
    requires Matches(pattern, subject)
    ensures ParseIdentity(Split(subject, '.')) == Some((tenant, agent))
  {
    PatternCarriesIdentity(tenant, agent, pattern);
    LiteralIdentity(Split(pattern, '.'), tenant, agent);
    MatchKeepsLiterals(Split(pattern, '.'), Split(subject, '.'), 4);
  }

  lemma UsedSubjectCarriesIdentity(tenant: string, agent: string, subject: string)
    requires BuildPermissions(tenant, agent).Some? && MayUse(BuildPermissions(tenant, agent).value, subject)
    ensures CarriesIdentity(Split(subject, '.'), tenant, agent)
  {
    var p := BuildPermissions(tenant, agent).value;
    var pattern :| (pattern in p.publish || pattern in p.subscribe) && Matches(pattern, subject);
    PatternCarriesIdentity(tenant, agent, pattern);
    LiteralIdentity(Split(pattern, '.'), tenant, agent);
    MatchKeepsLiterals(Split(pattern, '.'), Split(subject, '.'), 4);
  }

  /** No subject is usable, for publishing or subscribing, by two different identities. */
  lemma IdentitiesAreDisjoint(tenant: string, agent: string, tenant': string, agent': string, subject: string)
    requires BuildPermissions(tenant, agent).Some? && BuildPermissions(tenant', agent').Some?
    requires MayUse(BuildPermissions(tenant, agent).value, subject) && MayUse(BuildPermissions(tenant', agent').value, subject)
    ensures tenant == tenant' && agent == agent'
  {
    UsedSubjectCarriesIdentity(tenant, agent, subject);
    UsedSubjectCarriesIdentity(tenant', agent', subject);
  }
}
