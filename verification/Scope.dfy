/**
 Credential scopes (minter/scope.go): the publish and subscribe lists of a persona as languages of subjects
 under NATS wildcard matching, and the mint tags that name the same scope.
*/
module Scope {
  import opened Wrappers
  import opened Names

  datatype Role = Agent | Tool | OtherRole

  datatype Capabilities = Capabilities(role: string, tools: seq<string>)

  datatype Scope = Scope(role: Role, persona: string, topic: string, capabilities: Option<Capabilities>)

  datatype Permissions = Permissions(pub: seq<string>, sub: seq<string>)

  const OPS := "SOULSTREAM" + "." + "TOPICS" + "." + "OPS"
  const INFO := "SOULSTREAM" + "." + "TOPICS" + "." + "INFO"
  const INFO_WILDCARD := INFO + "." + ">"
  const NOTIFY := "SOULSTREAM" + "." + "PERSONA" + "." + "NOTIFY"
  const SVC := "SOULSTREAM" + "." + "SVC"
  const INBOX := "_INBOX"
  const INBOX_WILDCARD := INBOX + "." + ">"
  const JS_API_INFO := "$JS" + "." + "API" + "." + "INFO"

  function OpsSubject(topic: string): string { OPS + "." + topic }
  function NotifySubject(persona: string): string { NOTIFY + "." + persona }
  function ServiceSubject(tool: string): string { SVC + "." + tool }

  method PermissionSet(s: Scope) returns (p: Permissions)
    ensures p == Granted(s)
  {
    if s.role.Tool? {
      return Permissions([INBOX_WILDCARD], [ServiceSubject(s.persona), INBOX_WILDCARD]);
    }
    var ops := OpsSubject(s.topic);
    var pub := [ops, NotifySubject("*")];
    if s.capabilities.None? {
      pub := pub + [ServiceSubject(">")];
    } else {
      var tools := s.capabilities.value.tools;
      for i := 0 to |tools|
        invariant pub == [ops, NotifySubject("*")] + Services(tools[..i])
      {
        pub := pub + [ServiceSubject(tools[i])];
        assert tools[..i + 1] == tools[..i] + [tools[i]];
      }
      assert tools[..|tools|] == tools;
    }
    pub := pub + [INBOX_WILDCARD, JS_API_INFO];
    return Permissions(pub, [ops, INFO_WILDCARD, NotifySubject(s.persona), INBOX_WILDCARD]);
  }

  function Services(tools: seq<string>): seq<string> {
    seq(|tools|, i requires 0 <= i < |tools| => ServiceSubject(tools[i]))
  }

  function Granted(s: Scope): Permissions {
    if s.role.Tool? then Permissions([INBOX_WILDCARD], [ServiceSubject(s.persona), INBOX_WILDCARD])
    else
      Permissions(
        [OpsSubject(s.topic), NotifySubject("*")]
        + (if s.capabilities.None? then [ServiceSubject(">")] else Services(s.capabilities.value.tools))
        + [INBOX_WILDCARD, JS_API_INFO],
        [OpsSubject(s.topic), INFO_WILDCARD, NotifySubject(s.persona), INBOX_WILDCARD])
  }

  /*** The language of a subject list ***/

  /** NATS matching over tokens: '*' stands for one token, a final '>' for one or more. */
  predicate MatchTokens(pattern: seq<string>, subject: seq<string>) {
    if pattern == [] then subject == []
    else if subject == [] then false
    else if pattern == [">"] then true
    else (pattern[0] == "*" || pattern[0] == subject[0]) && MatchTokens(pattern[1..], subject[1..])
  }

  predicate Matches(pattern: string, subject: string) { MatchTokens(Split(pattern, '.'), Split(subject, '.')) }

  predicate Allowed(patterns: seq<string>, subject: string) {
    exists i | 0 <= i < |patterns| :: Matches(patterns[i], subject)
  }

  predicate MayPublish(s: Scope, subject: string) { Allowed(Granted(s).pub, subject) }

  predicate MaySubscribe(s: Scope, subject: string) { Allowed(Granted(s).sub, subject) }

  predicate Literal(toks: seq<string>) { forall i | 0 <= i < |toks| :: toks[i] != "*" && toks[i] != ">" }

  lemma {:induction false} LiteralMatchesItself(p: seq<string>, s: seq<string>)
    requires Literal(p)
    ensures MatchTokens(p, s) <==> p == s
  {
    if p != [] && s != [] {
      LiteralMatchesItself(p[1..], s[1..]);
      assert p == [p[0]] + p[1..] && s == [s[0]] + s[1..];
    }
  }

  /** A literal prefix has to be there; the rest matches the rest. */
  lemma {:induction false} PrefixMatches(pre: seq<string>, p: seq<string>, s: seq<string>)
    requires Literal(pre) && |p| > 0
    ensures MatchTokens(pre + p, s) <==> pre <= s && MatchTokens(p, s[|pre|..])
  {
    if pre == [] {
      assert pre + p == p;
    } else if s != [] {
      assert (pre + p)[1..] == pre[1..] + p;
      PrefixMatches(pre[1..], p, s[1..]);
      assert pre == [pre[0]] + pre[1..] && s == [s[0]] + s[1..];
      if pre <= s { assert s[1..][|pre| - 1..] == s[|pre|..]; }
    }
  }

  /** A literal pattern allows itself alone. */
  lemma LiteralPattern(p: string, subject: string)
    requires Literal(Split(p, '.'))
    ensures Matches(p, subject) <==> subject == p
  {
    LiteralMatchesItself(Split(p, '.'), Split(subject, '.'));
    if Split(p, '.') == Split(subject, '.') { SplitIsInjective(p, subject, '.'); }
  }

  /** What lies under a namespace: at least one more token after the namespace's own. */
  ghost predicate Under(ns: string, subject: string) { exists x :: subject == ns + "." + x }

  lemma UnderIffPrefix(ns: string, subject: string)
    ensures Under(ns, subject) <==> Split(ns, '.') < Split(subject, '.')
  {
    var n, s := Split(ns, '.'), Split(subject, '.');
    if n < s {
      var rest := s[|n|..];
      assert s == n + rest;
      JoinOfConcat(n, rest, '.');
      JoinUndoesSplit(ns, '.');
      JoinUndoesSplit(subject, '.');
      assert subject == ns + "." + Join(rest, '.');
    }
    if x :| subject == ns + "." + x {
      SplitOfConcat(ns, x, '.');
    }
  }

  lemma NamespacePattern(ns: string, x: string, subject: string)
    requires Literal(Split(ns, '.'))
    ensures Matches(ns + "." + x, subject)
            <==> Split(ns, '.') <= Split(subject, '.')
                 && MatchTokens(Split(x, '.'), Split(subject, '.')[|Split(ns, '.')|..])
  {
    SplitOfConcat(ns, x, '.');
    PrefixMatches(Split(ns, '.'), Split(x, '.'), Split(subject, '.'));
  }

  /** ns.> allows everything under ns. */
  lemma RestPattern(ns: string, subject: string)
    requires Literal(Split(ns, '.'))
    ensures Matches(ns + "." + ">", subject) <==> Under(ns, subject)
  {
    NamespacePattern(ns, ">", subject);
    SplitOfPlain(">", '.');
    UnderIffPrefix(ns, subject);
  }

  /** ns.* allows every single token under ns. */
  lemma OneTokenPattern(ns: string, subject: string)
    requires Literal(Split(ns, '.'))
    ensures Matches(ns + "." + "*", subject) <==> exists q :: '.' !in q && subject == ns + "." + q
  {
    NamespacePattern(ns, "*", subject);
    SplitOfPlain("*", '.');
    var n, s := Split(ns, '.'), Split(subject, '.');
    if Matches(ns + "." + "*", subject) {
      var q := s[|n|];
      assert q in s && s == n + [q];
      SplitOfPlain(q, '.');
      SplitOfConcat(ns, q, '.');
      SplitIsInjective(subject, ns + "." + q, '.');
    }
    if q :| '.' !in q && subject == ns + "." + q {
      SplitOfConcat(ns, q, '.');
      SplitOfPlain(q, '.');
      assert s[|n|..] == [q];
    }
  }

  lemma AllowedByEither(a: seq<string>, b: seq<string>, subject: string)
    ensures Allowed(a + b, subject) <==> Allowed(a, subject) || Allowed(b, subject)
  {
    if i :| 0 <= i < |a| && Matches(a[i], subject) { assert (a + b)[i] == a[i]; }
    if i :| 0 <= i < |b| && Matches(b[i], subject) { assert (a + b)[|a| + i] == b[i]; }
  }

  lemma AllowedByOne(p: string, subject: string)
    ensures Allowed([p], subject) <==> Matches(p, subject)
  {
    assert [p][0] == p;
  }

  lemma TwoTokens(a: string, b: string)
    requires '.' !in a && '.' !in b
    ensures Split(a + "." + b, '.') == [a, b]
  {
    SplitOfConcat(a, b, '.');
    SplitOfPlain(a, '.');
    SplitOfPlain(b, '.');
  }

  lemma ThreeTokens(a: string, b: string, c: string)
    requires '.' !in a && '.' !in b && '.' !in c
    ensures Split(a + "." + b + "." + c, '.') == [a, b, c]
  {
    TwoTokens(a, b);
    SplitOfConcat(a + "." + b, c, '.');
    SplitOfPlain(c, '.');
  }

  lemma LiteralNamespaces()
    ensures Literal(Split(OPS, '.')) && Literal(Split(NOTIFY, '.')) && Literal(Split(SVC, '.'))
    ensures Literal(Split(JS_API_INFO, '.')) && Literal(Split(INBOX, '.')) && Literal(Split(INFO, '.'))
  {
    Namespaces();
  }

  /** Two namespaces that part at some token. */
  ghost predicate Differ(ns: string, ms: string) {
    exists k :: 0 <= k < |Split(ns, '.')| && k < |Split(ms, '.')| && Split(ns, '.')[k] != Split(ms, '.')[k]
  }

  lemma DifferAt(k: nat)
    ensures forall ns, ms :: |Split(ns, '.')| > k && |Split(ms, '.')| > k && Split(ns, '.')[k] != Split(ms, '.')[k]
                             ==> Differ(ns, ms)
  {}

  lemma NamespacesDiffer()
    ensures Differ(OPS, SVC) && Differ(NOTIFY, SVC) && Differ(INBOX, SVC) && Differ(JS_API_INFO, SVC)
    ensures Differ(NOTIFY, OPS) && Differ(SVC, OPS) && Differ(INBOX, OPS) && Differ(JS_API_INFO, OPS)
    ensures Differ(INFO, OPS)
    ensures Differ(OPS, NOTIFY) && Differ(INFO, NOTIFY) && Differ(INBOX, NOTIFY)
  {
    Namespaces();
    DifferAt(0);
    DifferAt(1);
    DifferAt(2);
  }

  /** A pattern under one namespace allows nothing under a namespace that parts from it. */
  lemma Elsewhere(ns: string, x: string, ms: string, subject: string)
    requires Literal(Split(ns, '.')) && Differ(ns, ms) && Under(ms, subject)
    ensures !Matches(ns + "." + x, subject) && subject != ns
  {
    NamespacePattern(ns, x, subject);
    UnderIffPrefix(ms, subject);
    var n, m, s := Split(ns, '.'), Split(ms, '.'), Split(subject, '.');
    var k :| 0 <= k < |n| && k < |m| && n[k] != m[k];
    assert s[k] == m[k];
  }

  /** The namespaces have literal tokens, and no two overlap: they differ in the first or second token. */
  lemma Namespaces()
    ensures Split(OPS, '.') == ["SOULSTREAM", "TOPICS", "OPS"]
    ensures Split(INFO, '.') == ["SOULSTREAM", "TOPICS", "INFO"]
    ensures Split(NOTIFY, '.') == ["SOULSTREAM", "PERSONA", "NOTIFY"]
    ensures Split(SVC, '.') == ["SOULSTREAM", "SVC"]
    ensures Split(JS_API_INFO, '.') == ["$JS", "API", "INFO"]
    ensures Split(INBOX, '.') == ["_INBOX"]
  {
    ThreeTokens("SOULSTREAM", "TOPICS", "OPS");
    ThreeTokens("SOULSTREAM", "TOPICS", "INFO");
    ThreeTokens("SOULSTREAM", "PERSONA", "NOTIFY");
    TwoTokens("SOULSTREAM", "SVC");
    ThreeTokens("$JS", "API", "INFO");
    SplitOfPlain("_INBOX", '.');
  }

  /*** What a scope may touch ***/

  ghost predicate ToolsNamed(valid: string -> bool, s: Scope) {
    s.capabilities.Some? ==> forall t | t in s.capabilities.value.tools :: valid(t)
  }

  /** The tool subjects an agent may call: all of them, or exactly the declared ones. */
  ghost predicate MayCall(s: Scope, subject: string) {
    if s.capabilities.None? then Under(SVC, subject)
    else exists t :: t in s.capabilities.value.tools && subject == ServiceSubject(t)
  }

  lemma PathIsLiteral(valid: string -> bool, path: string)
    requires NameGrammar(valid) && IsTopicPath(valid, path)
    ensures Literal(Split(path, '.'))
  {
    var toks := Split(path, '.');
    forall i | 0 <= i < |toks| ensures toks[i] != "*" && toks[i] != ">" {
      assert valid(toks[i]);
      assert '*' !in toks[i] && '>' !in toks[i];
    }
  }

  lemma NameIsPath(valid: string -> bool, name: string)
    requires NameGrammar(valid) && valid(name)
    ensures IsTopicPath(valid, name)
  {
    SplitOfPlain(name, '.');
  }

  /** ns.path allows itself alone when the path is valid. */
  lemma NamedPattern(valid: string -> bool, ns: string, path: string, subject: string)
    requires NameGrammar(valid) && IsTopicPath(valid, path) && Literal(Split(ns, '.'))
    ensures Matches(ns + "." + path, subject) <==> subject == ns + "." + path
  {
    PathIsLiteral(valid, path);
    SplitOfConcat(ns, path, '.');
    LiteralPattern(ns + "." + path, subject);
  }

  lemma ServicesAllow(valid: string -> bool, tools: seq<string>, subject: string)
    requires NameGrammar(valid) && forall t | t in tools :: valid(t)
    ensures Allowed(Services(tools), subject) <==> exists t :: t in tools && subject == ServiceSubject(t)
  {
    Namespaces();
    forall i | 0 <= i < |tools| ensures Matches(Services(tools)[i], subject) <==> subject == ServiceSubject(tools[i]) {
      NameIsPath(valid, tools[i]);
      NamedPattern(valid, SVC, tools[i], subject);
    }
    if t :| t in tools && subject == ServiceSubject(t) {
      var i :| 0 <= i < |tools| && tools[i] == t;
      assert Matches(Services(tools)[i], subject);
    }
  }

  /** The list of an agent, pattern by pattern. */
  lemma AgentList(s: Scope, subject: string)
    requires !s.role.Tool?
    ensures MayPublish(s, subject)
            <==> || Matches(OpsSubject(s.topic), subject)
                 || Matches(NotifySubject("*"), subject)
                 || Allowed(ServiceList(s), subject)
                 || Matches(INBOX_WILDCARD, subject)
                 || Matches(JS_API_INFO, subject)
  {
    var head, tail := [OpsSubject(s.topic)] + [NotifySubject("*")], [INBOX_WILDCARD] + [JS_API_INFO];
    assert Granted(s).pub == head + ServiceList(s) + tail;
    AllowedByEither(head + ServiceList(s), tail, subject);
    AllowedByEither(head, ServiceList(s), subject);
    AllowedByEither([OpsSubject(s.topic)], [NotifySubject("*")], subject);
    AllowedByEither([INBOX_WILDCARD], [JS_API_INFO], subject);
    AllowedByOne(OpsSubject(s.topic), subject);
    AllowedByOne(NotifySubject("*"), subject);
    AllowedByOne(INBOX_WILDCARD, subject);
    AllowedByOne(JS_API_INFO, subject);
  }

  function ServiceList(s: Scope): seq<string> {
    if s.capabilities.None? then [ServiceSubject(">")] else Services(s.capabilities.value.tools)
  }

  lemma CallsAllowed(valid: string -> bool, s: Scope, subject: string)
    requires NameGrammar(valid) && ToolsNamed(valid, s)
    ensures Allowed(ServiceList(s), subject) <==> MayCall(s, subject)
  {
    LiteralNamespaces();
    if s.capabilities.None? {
      AllowedByOne(ServiceSubject(">"), subject);
      RestPattern(SVC, subject);
    } else {
      ServicesAllow(valid, s.capabilities.value.tools, subject);
    }
  }

  /** One token under the notify namespace: a mention of anybody. */
  ghost predicate Mentions(subject: string) { exists q :: '.' !in q && subject == NotifySubject(q) }

  lemma FixedPatterns(subject: string)
    ensures Matches(NotifySubject("*"), subject) <==> Mentions(subject)
    ensures Matches(INBOX_WILDCARD, subject) <==> Under(INBOX, subject)
    ensures Matches(JS_API_INFO, subject) <==> subject == JS_API_INFO
  {
    LiteralNamespaces();
    OneTokenPattern(NOTIFY, subject);
    RestPattern(INBOX, subject);
    LiteralPattern(JS_API_INFO, subject);
  }

  /** Everything an agent may publish, exactly. */
  lemma AgentPublishes(valid: string -> bool, s: Scope, subject: string)
    requires NameGrammar(valid) && !s.role.Tool? && IsTopicPath(valid, s.topic) && ToolsNamed(valid, s)
    ensures MayPublish(s, subject)
            <==> || subject == OpsSubject(s.topic)
                 || Mentions(subject)
                 || MayCall(s, subject)
                 || Under(INBOX, subject)
                 || subject == JS_API_INFO
  {
    AgentList(s, subject);
    LiteralNamespaces();
    NamedPattern(valid, OPS, s.topic, subject);
    FixedPatterns(subject);
    CallsAllowed(valid, s, subject);
  }

  /** A tool answers on inboxes and publishes nothing else. */
  lemma ToolPublishes(s: Scope, subject: string)
    requires s.role.Tool?
    ensures MayPublish(s, subject) <==> Under(INBOX, subject)
  {
    Namespaces();
    AllowedByOne(INBOX_WILDCARD, subject);
    RestPattern(INBOX, subject);
  }

  /** Declaring capabilities, whatever they hold, never adds a subject, and changes nothing outside the
      tool namespace. */
  lemma CapabilitiesOnlyNarrow(s: Scope, c: Capabilities, subject: string)
    requires !s.role.Tool? && s.capabilities.None?
    ensures MayPublish(s.(capabilities := Some(c)), subject) ==> MayPublish(s, subject)
    ensures !Under(SVC, subject) ==> (MayPublish(s.(capabilities := Some(c)), subject) <==> MayPublish(s, subject))
    ensures Granted(s.(capabilities := Some(c))).sub == Granted(s).sub
  {
    Namespaces();
    AgentList(s, subject);
    AgentList(s.(capabilities := Some(c)), subject);
    AllowedByOne(ServiceSubject(">"), subject);
    RestPattern(SVC, subject);
    forall t | t in c.tools && Matches(ServiceSubject(t), subject) ensures Under(SVC, subject) {
      NamespacePattern(SVC, t, subject);
      UnderIffPrefix(SVC, subject);
    }
  }

  /** Under the tool namespace only the tool patterns have a say, whatever the topic. */
  lemma OnlyToolPatterns(s: Scope, subject: string)
    requires !s.role.Tool? && Under(SVC, subject)
    ensures MayPublish(s, subject) <==> Allowed(ServiceList(s), subject)
  {
    AgentList(s, subject);
    LiteralNamespaces();
    NamespacesDiffer();
    Elsewhere(OPS, s.topic, SVC, subject);
    Elsewhere(NOTIFY, "*", SVC, subject);
    Elsewhere(INBOX, ">", SVC, subject);
    Elsewhere(JS_API_INFO, ">", SVC, subject);
    LiteralPattern(JS_API_INFO, subject);
  }

  lemma SuffixIsTheName(ns: string, x: string, y: string)
    requires ns + "." + x == ns + "." + y
    ensures x == y
  {
    assert (ns + "." + x)[|ns| + 1..] == x && (ns + "." + y)[|ns| + 1..] == y;
  }

  /** A service is reachable exactly when it is declared, for any name at all, whatever the topic. */
  lemma ServiceIffDeclared(valid: string -> bool, s: Scope, x: string)
    requires NameGrammar(valid) && !s.role.Tool? && s.capabilities.Some? && ToolsNamed(valid, s)
    ensures MayPublish(s, ServiceSubject(x)) <==> x in s.capabilities.value.tools
  {
    assert Under(SVC, ServiceSubject(x));
    OnlyToolPatterns(s, ServiceSubject(x));
    CallsAllowed(valid, s, ServiceSubject(x));
    forall t | ServiceSubject(t) == ServiceSubject(x) ensures t == x { SuffixIsTheName(SVC, t, x); }
  }

  lemma ServicesElsewhere(s: Scope, ms: string, subject: string)
    requires Differ(SVC, ms) && Under(ms, subject)
    ensures !Allowed(ServiceList(s), subject)
  {
    LiteralNamespaces();
    forall i | 0 <= i < |ServiceList(s)| ensures !Matches(ServiceList(s)[i], subject) {
      Elsewhere(SVC, if s.capabilities.None? then ">" else s.capabilities.value.tools[i], ms, subject);
    }
  }

  /** The subscribe list of an agent, pattern by pattern. */
  lemma FollowList(s: Scope, subject: string)
    requires !s.role.Tool?
    ensures MaySubscribe(s, subject)
            <==> || Matches(OpsSubject(s.topic), subject)
                 || Matches(INFO_WILDCARD, subject)
                 || Matches(NotifySubject(s.persona), subject)
                 || Matches(INBOX_WILDCARD, subject)
  {
    var a, b := [OpsSubject(s.topic)] + [INFO_WILDCARD], [NotifySubject(s.persona)] + [INBOX_WILDCARD];
    assert Granted(s).sub == a + b;
    AllowedByEither(a, b, subject);
    AllowedByEither([OpsSubject(s.topic)], [INFO_WILDCARD], subject);
    AllowedByEither([NotifySubject(s.persona)], [INBOX_WILDCARD], subject);
    AllowedByOne(OpsSubject(s.topic), subject);
    AllowedByOne(INFO_WILDCARD, subject);
    AllowedByOne(NotifySubject(s.persona), subject);
    AllowedByOne(INBOX_WILDCARD, subject);
  }

  /** One topic per credential: of all topics an agent publishes on its own alone and follows its own
      alone, whatever capabilities it declares. */
  lemma TopicIsolation(valid: string -> bool, s: Scope, topic: string)
    requires NameGrammar(valid) && !s.role.Tool? && IsTopicPath(valid, s.topic)
    ensures MayPublish(s, OpsSubject(topic)) <==> topic == s.topic
    ensures MaySubscribe(s, OpsSubject(topic)) <==> topic == s.topic
  {
    var subject := OpsSubject(topic);
    assert Under(OPS, subject);
    AgentList(s, subject);
    FollowList(s, subject);
    LiteralNamespaces();
    NamespacesDiffer();
    NamedPattern(valid, OPS, s.topic, subject);
    if OpsSubject(s.topic) == subject { SuffixIsTheName(OPS, s.topic, topic); }
    Elsewhere(NOTIFY, "*", OPS, subject);
    Elsewhere(NOTIFY, s.persona, OPS, subject);
    Elsewhere(INFO, ">", OPS, subject);
    Elsewhere(INBOX, ">", OPS, subject);
    Elsewhere(JS_API_INFO, ">", OPS, subject);
    LiteralPattern(JS_API_INFO, subject);
    ServicesElsewhere(s, OPS, subject);
  }

  /** An agent hears its own mentions and nobody else's. */
  lemma MentionIsolation(valid: string -> bool, s: Scope, persona: string)
    requires NameGrammar(valid) && !s.role.Tool? && valid(s.persona)
    ensures MaySubscribe(s, NotifySubject(persona)) <==> persona == s.persona
  {
    var subject := NotifySubject(persona);
    assert Under(NOTIFY, subject);
    FollowList(s, subject);
    LiteralNamespaces();
    NamespacesDiffer();
    NameIsPath(valid, s.persona);
    NamedPattern(valid, NOTIFY, s.persona, subject);
    if NotifySubject(s.persona) == subject { SuffixIsTheName(NOTIFY, s.persona, persona); }
    Elsewhere(OPS, s.topic, NOTIFY, subject);
    Elsewhere(INFO, ">", NOTIFY, subject);
    Elsewhere(INBOX, ">", NOTIFY, subject);
  }

  /** A tool serves its own subject and nobody else's. */
  lemma ToolIsolation(valid: string -> bool, s: Scope, x: string)
    requires NameGrammar(valid) && s.role.Tool? && valid(s.persona)
    ensures MaySubscribe(s, ServiceSubject(x)) <==> x == s.persona
  {
    var subject := ServiceSubject(x);
    assert Under(SVC, subject);
    assert Granted(s).sub == [ServiceSubject(s.persona)] + [INBOX_WILDCARD];
    AllowedByEither([ServiceSubject(s.persona)], [INBOX_WILDCARD], subject);
    AllowedByOne(ServiceSubject(s.persona), subject);
    AllowedByOne(INBOX_WILDCARD, subject);
    LiteralNamespaces();
    NamespacesDiffer();
    NameIsPath(valid, s.persona);
    NamedPattern(valid, SVC, s.persona, subject);
    if ServiceSubject(s.persona) == subject { SuffixIsTheName(SVC, s.persona, x); }
    Elsewhere(INBOX, ">", SVC, subject);
  }

  /** Everything a tool may subscribe to, exactly: its own service subject and inboxes, and nothing else. */
  lemma ToolFollows(valid: string -> bool, s: Scope, subject: string)
    requires NameGrammar(valid) && s.role.Tool? && valid(s.persona)
    ensures MaySubscribe(s, subject) <==> subject == ServiceSubject(s.persona) || Under(INBOX, subject)
  {
    assert Granted(s).sub == [ServiceSubject(s.persona)] + [INBOX_WILDCARD];
    AllowedByEither([ServiceSubject(s.persona)], [INBOX_WILDCARD], subject);
    AllowedByOne(ServiceSubject(s.persona), subject);
    AllowedByOne(INBOX_WILDCARD, subject);
    LiteralNamespaces();
    NameIsPath(valid, s.persona);
    NamedPattern(valid, SVC, s.persona, subject);
    RestPattern(INBOX, subject);
  }

  /** Everything an agent may subscribe to, exactly: its topic, topic announcements, its own mentions and
      inboxes. */
  lemma AgentFollows(valid: string -> bool, s: Scope, subject: string)
    requires NameGrammar(valid) && !s.role.Tool? && valid(s.persona) && IsTopicPath(valid, s.topic)
    ensures MaySubscribe(s, subject)
            <==> || subject == OpsSubject(s.topic)
                 || Under(INFO, subject)
                 || subject == NotifySubject(s.persona)
                 || Under(INBOX, subject)
  {
    FollowList(s, subject);
    LiteralNamespaces();
    NameIsPath(valid, s.persona);
    NamedPattern(valid, OPS, s.topic, subject);
    NamedPattern(valid, NOTIFY, s.persona, subject);
    RestPattern(INFO, subject);
    RestPattern(INBOX, subject);
  }

  /** The name grammar is what makes the tool list exact: a single tool called "*" would open every
      service. */
  lemma WildcardToolOpensAll(s: Scope, x: string)
    requires !s.role.Tool? && s.capabilities.Some? && "*" in s.capabilities.value.tools && '.' !in x
    ensures MayPublish(s, ServiceSubject(x))
  {
    LiteralNamespaces();
    OneTokenPattern(SVC, ServiceSubject(x));
    AgentList(s, ServiceSubject(x));
    var tools := s.capabilities.value.tools;
    var i :| 0 <= i < |tools| && tools[i] == "*";
    assert Matches(ServiceList(s)[i], ServiceSubject(x));
  }

  /*** Mint tags ***/

  datatype Refusal = RoleName | ToolName(tool: string) | ToolTwice(tool: string) | AgentOnly | PersonaName | TopicPath

  ghost predicate WellDeclared(valid: string -> bool, c: Capabilities) {
    && valid(c.role)
    && (forall t | t in c.tools :: valid(t))
    && (forall i, j | 0 <= i < j < |c.tools| :: c.tools[i] != c.tools[j])
  }

  /** Capabilities.Validate. */
  method ValidateCapabilities(valid: string -> bool, c: Capabilities) returns (r: Option<Refusal>)
    ensures r.None? <==> WellDeclared(valid, c)
    ensures r.None? <==> && valid(c.role) && (forall t | t in c.tools :: valid(t))
                         && forall i, j | 0 <= i < j < |c.tools| :: c.tools[i] != c.tools[j]
    ensures r == Some(RoleName) <==> !valid(c.role)
    ensures r.Some? && r.value.ToolName? ==> r.value.tool in c.tools && !valid(r.value.tool)
    ensures r.Some? && r.value.ToolTwice? ==>
              exists i, j :: 0 <= i < j < |c.tools| && c.tools[i] == c.tools[j] == r.value.tool
    ensures r.Some? ==> r.value.RoleName? || r.value.ToolName? || r.value.ToolTwice?
  {
    if !valid(c.role) { return Some(RoleName); }
    var seen: set<string> := {};
    for i := 0 to |c.tools|
      invariant seen == set t | t in c.tools[..i]
      invariant forall k | 0 <= k < i :: valid(c.tools[k])
      invariant forall k, j | 0 <= k < j < i :: c.tools[k] != c.tools[j]
    {
      var t := c.tools[i];
      if !valid(t) { return Some(ToolName(t)); }
      if t in seen {
        var k :| 0 <= k < i && c.tools[..i][k] == t;
        assert c.tools[k] == c.tools[i] == t;
        return Some(ToolTwice(t));
      }
      forall k | 0 <= k < i ensures c.tools[k] != t { assert c.tools[..i][k] in seen; }
      seen := seen + {t};
      assert c.tools[..i + 1] == c.tools[..i] + [t];
    }
    return None;
  }

  const PERSONA_KEY := "persona"
  const TOPIC_KEY := "topic"
  const TOOL_KEY := "tool"

  function Tag(key: string, value: string): string { key + ":" + value }

  /** What a reader of the tags gets for a key: the values behind the first colon, in order. */
  function Values(tags: seq<string>, key: string): seq<string> {
    if tags == [] then []
    else
      var init, cut := Values(tags[..|tags| - 1], key), Cut(tags[|tags| - 1], ':');
      if cut.Some? && cut.value.0 == key then init + [cut.value.1] else init
  }

  lemma ReadTag(tags: seq<string>, key: string, value: string, other: string)
    requires ':' !in key
    ensures Values(tags + [Tag(key, value)], other) == Values(tags, other) + (if other == key then [value] else [])
  {
    CutAtFirst(key, value, ':');
    assert (tags + [Tag(key, value)])[..|tags|] == tags;
    assert Values(tags, other) + [] == Values(tags, other);
  }

  /** The tags say exactly what the scope says: they read back to the persona, the topic and the tools in
      their declared order, and nothing that could alter a subject is ever rendered. */
  method MintTags(valid: string -> bool, s: Scope) returns (r: Result<seq<string>, Refusal>)
    ensures s.capabilities.None? ==> r == Ok([])
    ensures s.capabilities.Some? ==>
              (r.Ok? <==>
                 && !s.role.Tool? && WellDeclared(valid, s.capabilities.value)
                 && valid(s.persona) && IsTopicPath(valid, s.topic))
    ensures s.capabilities.Some? && r.Ok? ==>
              && Values(r.value, PERSONA_KEY) == [s.persona]
              && Values(r.value, TOPIC_KEY) == [s.topic]
              && Values(r.value, TOOL_KEY) == s.capabilities.value.tools
              && |r.value| == 2 + |s.capabilities.value.tools|
  {
    if s.capabilities.None? { return Ok([]); }
    if s.role.Tool? { return Err(AgentOnly); }
    var refusal := ValidateCapabilities(valid, s.capabilities.value);
    if refusal.Some? { return Err(refusal.value); }
    if !valid(s.persona) { return Err(PersonaName); }
    var path := ValidateTopicPath(valid, s.topic);
    if !path { return Err(TopicPath); }
    var tools := s.capabilities.value.tools;
    var tags := [Tag(PERSONA_KEY, s.persona)] + [Tag(TOPIC_KEY, s.topic)];
    KeysApart();
    TwoTags(s.persona, s.topic);
    for i := 0 to |tools|
      invariant Values(tags, PERSONA_KEY) == [s.persona] && Values(tags, TOPIC_KEY) == [s.topic]
      invariant Values(tags, TOOL_KEY) == tools[..i] && |tags| == 2 + i
    {
      ReadTag(tags, TOOL_KEY, tools[i], PERSONA_KEY);
      ReadTag(tags, TOOL_KEY, tools[i], TOPIC_KEY);
      ReadTag(tags, TOOL_KEY, tools[i], TOOL_KEY);
      tags := tags + [Tag(TOOL_KEY, tools[i])];
    }
    return Ok(tags);
  }

  lemma KeysApart()
    ensures PERSONA_KEY != TOPIC_KEY && TOPIC_KEY != TOOL_KEY && PERSONA_KEY != TOOL_KEY
    ensures ':' !in PERSONA_KEY && ':' !in TOPIC_KEY && ':' !in TOOL_KEY
  {
    assert |PERSONA_KEY| == 7 && |TOPIC_KEY| == 5 && |TOOL_KEY| == 4;
  }

  lemma TwoTags(persona: string, topic: string)
    ensures var tags := [Tag(PERSONA_KEY, persona)] + [Tag(TOPIC_KEY, topic)];
            && Values(tags, PERSONA_KEY) == [persona]
            && Values(tags, TOPIC_KEY) == [topic]
            && Values(tags, TOOL_KEY) == []
  {
    KeysApart();
    var one := [Tag(PERSONA_KEY, persona)];
    assert [] + one == one;
    forall key ensures Values(one, key) == if key == PERSONA_KEY then [persona] else [] {
      ReadTag([], PERSONA_KEY, persona, key);
    }
    ReadTag(one, TOPIC_KEY, topic, PERSONA_KEY);
    ReadTag(one, TOPIC_KEY, topic, TOPIC_KEY);
    ReadTag(one, TOPIC_KEY, topic, TOOL_KEY);
  }
}
