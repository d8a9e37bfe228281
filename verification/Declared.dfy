/**
 From declaration to engine (wrap/declared.go, wrap/config.go): the mapping, the defaults, and the theorem
 that the declared knobs are the ones admission enforces.
*/
module Declared {
  import opened Wrappers
  import opened Correlate
  import opened Declaration
  import opened Names
  import W = WakeProtocol
  import Scope

  datatype TopicWake = TopicWake(path: string, types: seq<string>)

  datatype ScheduleWake = ScheduleWake(name: string, pattern: string, ttl: int)

  datatype WakeSet = WakeSet(mention: bool, topics: seq<TopicWake>, schedules: seq<ScheduleWake>, subjects: seq<string>)

  datatype TerminalMap = TerminalMap(
    typeField: string,
    terminalValue: string,
    textField: string,
    statusField: string,
    successValue: string)

  /** The harness template, as far as its validation and the mapping look at it. */
  datatype Template = Template(command: seq<string>, prompt: string, terminal: TerminalMap)

  datatype EngineConfig = EngineConfig(
    persona: string,
    template: Template,
    runTimeout: int,
    retries: int,
    budget: Budget,
    unbudgeted: bool,
    wakes: Option<WakeSet>,
    homeTopic: string,
    instructions: Option<Instructions>)

  datatype Refusal = BadDeclaration | NotAnAgent | PersonaMismatch | BadTtl | BadKind | BadWakes | BadPer | NoClient

  const SECOND := 1_000_000_000
  const UNSET := Budget(0, 0, 0)
  const INSTRUCTIONS := "{{INSTRUCTIONS}}"

  /*** The wake set ***/

  function Types(e: WakeEntry): seq<string> { if |e.types| > 0 then e.types else [TURN_POST] }

  function Ttl(g: Grammar, e: WakeEntry): int {
    if e.ttl == "" || g.duration(e.ttl).None? then 0 else g.duration(e.ttl).value
  }

  function TopicsOf(es: seq<WakeEntry>): seq<TopicWake> {
    seq(|es|, i requires 0 <= i < |es| => TopicWake(es[i].path, Types(es[i])))
  }

  function SchedulesOf(g: Grammar, es: seq<WakeEntry>): seq<ScheduleWake> {
    seq(|es|, i requires 0 <= i < |es| => ScheduleWake(es[i].name, es[i].pattern, Ttl(g, es[i])))
  }

  function SubjectsOf(es: seq<WakeEntry>): seq<string> {
    seq(|es|, i requires 0 <= i < |es| => es[i].subject)
  }

  function SetOf(g: Grammar, es: seq<WakeEntry>): WakeSet {
    WakeSet(OfKind(es, MentionEntry) != [], TopicsOf(OfKind(es, TopicEntry)),
            SchedulesOf(g, OfKind(es, ScheduleEntry)), SubjectsOf(OfKind(es, SubjectEntry)))
  }

  predicate Replayable(ty: string) {
    ty == "turn.post" || ty == "comment.add" || ty == "comment.reply" || ty == "attachment.add"
  }

  predicate AllReplayable(types: seq<string>) { forall ty | ty in types :: Replayable(ty) }

  predicate RunnableSet(s: WakeSet, homeTopic: string) {
    && (s.mention || |s.topics| > 0 || |s.schedules| > 0 || |s.subjects| > 0)
    && (|s.schedules| > 0 || |s.subjects| > 0 ==> homeTopic != "")
    && (forall i | 0 <= i < |s.topics| :: AllReplayable(s.topics[i].types))
  }

  method ValidateSet(s: WakeSet, homeTopic: string) returns (ok: bool)
    ensures ok <==> RunnableSet(s, homeTopic)
    ensures ok <==>
              && !(s.mention == false && s.topics == [] && s.schedules == [] && s.subjects == [])
              && (homeTopic == "" ==> s.schedules == [] && s.subjects == [])
              && forall i, ty | 0 <= i < |s.topics| && ty in s.topics[i].types ::
                   ty in {"turn.post", "comment.add", "comment.reply", "attachment.add"}
  {
    if !s.mention && |s.topics| == 0 && |s.schedules| == 0 && |s.subjects| == 0 { return false; }
    if (|s.schedules| > 0 || |s.subjects| > 0) && homeTopic == "" { return false; }
    for i := 0 to |s.topics|
      invariant forall k | 0 <= k < i :: AllReplayable(s.topics[k].types)
    {
      var types := s.topics[i].types;
      for j := 0 to |types|
        invariant forall k | 0 <= k < j :: Replayable(types[k])
      {
        if !Replayable(types[j]) {
          assert types[j] in types;
          return false;
        }
      }
    }
    return true;
  }

  /*** The mapping ***/

  /** The budget block as engine knobs. */
  function Knobs(g: Grammar, b: BudgetSpec): Budget {
    if b.window.Some? && b.window.value.max > 0 then
      var per := g.duration(b.window.value.per);
      Budget(b.maxHops, b.window.value.max, if per.Some? then per.value else 0)
    else Budget(b.maxHops, 0, 0)
  }

  predicate Contains(s: string, pat: string) { exists i | 0 <= i <= |s| :: pat <= s[i..] }

  function Mapped(g: Grammar, base: EngineConfig, d: Declaration): EngineConfig {
    base.(persona := d.persona,
          homeTopic := d.topic,
          wakes := Some(SetOf(g, d.wake)),
          budget := if d.budget.Some? then Knobs(g, d.budget.value) else base.budget,
          unbudgeted := base.unbudgeted || (d.budget.Some? && Knobs(g, d.budget.value) == UNSET),
          instructions := if d.instructions.Some? then d.instructions else base.instructions,
          template := base.template.(prompt := MappedPrompt(base.template.prompt, d.instructions.Some?)))
  }

  function MappedPrompt(prompt: string, instructed: bool): string {
    if instructed && prompt != "" && !Contains(prompt, INSTRUCTIONS) then prompt + "\n\n" + INSTRUCTIONS else prompt
  }

  /** The engine can run the declaration. */
  ghost predicate Runnable(g: Grammar, base: EngineConfig, d: Declaration, client: bool) {
    && ValidDeclaration(g, d)
    && d.role.Agent?
    && (base.persona == "" || base.persona == d.persona)
    && |d.wake| > 0
    && (forall e | e in d.wake && e.kind.TopicEntry? :: AllReplayable(e.types))
    && (d.instructions.Some? ==> client)
  }

  /** Spelled out: a valid agent declaration with at least one wake, for the persona the connection is admitted
      as if it is fixed, of topic types the engine can replay, with a client if it has instructions. */
  lemma RunnableIs(g: Grammar, base: EngineConfig, d: Declaration, client: bool)
    ensures Runnable(g, base, d, client) <==>
              && ValidDeclaration(g, d) && d.role == Scope.Agent && (base.persona != "" ==> base.persona == d.persona)
              && d.wake != [] && (d.instructions.Some? ==> client)
              && forall e, ty | e in d.wake && e.kind == TopicEntry && ty in e.types ::
                   ty in {"turn.post", "comment.add", "comment.reply", "attachment.add"}
  {
    if forall e, ty | e in d.wake && e.kind == TopicEntry && ty in e.types ::
         ty in {"turn.post", "comment.add", "comment.reply", "attachment.add"} {
      forall e | e in d.wake && e.kind == TopicEntry ensures AllReplayable(e.types) {}
    }
  }

  /** DeclaredConfig. Of its refusals three can never be met once the declaration is valid: an unparsable
      ttl, an unknown wake kind and an unparsable window. */
  method DeclaredConfig(g: Grammar, base0: EngineConfig, d: Declaration, client: bool)
      returns (r: Result<EngineConfig, Refusal>)
    ensures r.Ok? <==> Runnable(g, base0, d, client)
    ensures r.Ok? ==> r.value == Mapped(g, base0, d)
    ensures r.Err? ==> r.error !in {BadTtl, BadKind, BadPer}
  {
    var valid := Validate(g, d);
    if !valid { return Err(BadDeclaration); }
    if !d.role.Agent? { return Err(NotAnAgent); }
    var base := base0;
    if base.persona == "" { base := base.(persona := d.persona); }
    if d.persona != base.persona { return Err(PersonaMismatch); }
    base := base.(homeTopic := d.topic);

    var set_ := WakeSet(false, [], [], []);
    assert d.wake[..0] == [];
    for i := 0 to |d.wake|
      invariant set_ == SetOf(g, d.wake[..i])
    {
      var e := d.wake[i];
      assert e in d.wake;
      SetGrows(g, d.wake, i);
      match e.kind {
        case MentionEntry => set_ := set_.(mention := true);
        case TopicEntry => set_ := set_.(topics := set_.topics + [TopicWake(e.path, Types(e))]);
        case ScheduleEntry =>
          var ttl := 0;
          if e.ttl != "" {
            var parsed := g.duration(e.ttl);
            if parsed.None? { return Err(BadTtl); }
            ttl := parsed.value;
          }
          set_ := set_.(schedules := set_.schedules + [ScheduleWake(e.name, e.pattern, ttl)]);
        case SubjectEntry => set_ := set_.(subjects := set_.subjects + [e.subject]);
        case OtherEntry => return Err(BadKind);
      }
    }
    assert d.wake[..|d.wake|] == d.wake;
    SetIsRunnable(g, d);
    var ok := ValidateSet(set_, base.homeTopic);
    if !ok { return Err(BadWakes); }
    base := base.(wakes := Some(set_));

    if d.budget.Some? {
      var b := Budget(d.budget.value.maxHops, 0, 0);
      if d.budget.value.window.Some? && d.budget.value.window.value.max > 0 {
        var per := g.duration(d.budget.value.window.value.per);
        if per.None? { return Err(BadPer); }
        b := b.(windowMax := d.budget.value.window.value.max, windowPer := per.value);
      }
      base := base.(budget := b);
      if b == UNSET { base := base.(unbudgeted := true); }
    }

    if d.instructions.Some? {
      if !client { return Err(NoClient); }
      base := base.(instructions := d.instructions);
      var prompt := base.template.prompt;
      if prompt != "" && !Contains(prompt, INSTRUCTIONS) {
        base := base.(template := base.template.(prompt := prompt + "\n\n" + INSTRUCTIONS));
      }
    }
    return Ok(base);
  }

  /** Declared instructions have a place in every prompt, and a prompt is only ever added to. */
  lemma InstructionsReachThePrompt(g: Grammar, base: EngineConfig, d: Declaration)
    ensures base.template.prompt <= Mapped(g, base, d).template.prompt
    ensures base.template.prompt != "" && d.instructions.Some? ==>
              Contains(Mapped(g, base, d).template.prompt, INSTRUCTIONS)
    ensures d.instructions.None? || base.template.prompt == "" ==>
              Mapped(g, base, d).template == base.template
  {
    var p, at := Mapped(g, base, d).template.prompt, |base.template.prompt| + 2;
    if |p| > |base.template.prompt| { assert p[at..] == INSTRUCTIONS; }
  }

  /** A template the engine accepts stays one. */
  lemma MappingKeepsTheTemplateUsable(g: Grammar, base: EngineConfig, d: Declaration)
    ensures Usable(Mapped(g, base, d).template) <==> Usable(base.template)
  {
    InstructionsReachThePrompt(g, base, d);
  }

  lemma ListsGrow(g: Grammar, es: seq<WakeEntry>, e: WakeEntry)
    ensures TopicsOf(es + [e]) == TopicsOf(es) + [TopicWake(e.path, Types(e))]
    ensures SchedulesOf(g, es + [e]) == SchedulesOf(g, es) + [ScheduleWake(e.name, e.pattern, Ttl(g, e))]
    ensures SubjectsOf(es + [e]) == SubjectsOf(es) + [e.subject]
  {}

  lemma SetGrows(g: Grammar, es: seq<WakeEntry>, i: nat)
    requires i < |es|
    ensures var was, now, e := SetOf(g, es[..i]), SetOf(g, es[..i + 1]), es[i];
            match e.kind
            case MentionEntry => now == was.(mention := true)
            case TopicEntry => now == was.(topics := was.topics + [TopicWake(e.path, Types(e))])
            case ScheduleEntry => now == was.(schedules := was.schedules + [ScheduleWake(e.name, e.pattern, Ttl(g, e))])
            case SubjectEntry => now == was.(subjects := was.subjects + [e.subject])
            case OtherEntry => now == was
  {
    KindGrows(es, i, MentionEntry);
    KindGrows(es, i, TopicEntry);
    KindGrows(es, i, ScheduleEntry);
    KindGrows(es, i, SubjectEntry);
    ListsGrow(g, OfKind(es[..i], es[i].kind), es[i]);
  }

  lemma KindGrows(es: seq<WakeEntry>, i: nat, kind: EntryKind)
    requires i < |es|
    ensures es[i].kind == kind ==> OfKind(es[..i + 1], kind) == OfKind(es[..i], kind) + [es[i]]
    ensures es[i].kind != kind ==> OfKind(es[..i + 1], kind) == OfKind(es[..i], kind)
  {
    OneMore(es, i, kind);
  }

  lemma DefaultTypeIsReplayable(e: WakeEntry)
    ensures AllReplayable(Types(e)) <==> AllReplayable(e.types)
  {}

  lemma TopicTypes(es: seq<WakeEntry>)
    ensures (forall i | 0 <= i < |es| :: AllReplayable(TopicsOf(es)[i].types))
            <==> forall e | e in es :: AllReplayable(e.types)
  {
    forall i | 0 <= i < |es| ensures AllReplayable(TopicsOf(es)[i].types) <==> AllReplayable(es[i].types) {
      DefaultTypeIsReplayable(es[i]);
    }
    assert forall e | e in es :: exists i :: 0 <= i < |es| && es[i] == e;
  }

  /** Some source exactly when some entry. */
  lemma SomeSource(g: Grammar, es: seq<WakeEntry>)
    requires ValidWake(g, es)
    ensures OfKind(es, OtherEntry) == []
    ensures es != [] <==> var s := SetOf(g, es); s.mention || |s.topics| > 0 || |s.schedules| > 0 || |s.subjects| > 0
  {
    KindsPartition(es);
    forall e | e in es ensures !e.kind.OtherEntry? { assert ValidEntry(g, e); }
    Inhabited(OfKind(es, OtherEntry));
  }

  lemma SetIsRunnable(g: Grammar, d: Declaration)
    requires ValidDeclaration(g, d) && d.role.Agent?
    ensures RunnableSet(SetOf(g, d.wake), d.topic)
            <==> |d.wake| > 0 && forall e | e in d.wake && e.kind.TopicEntry? :: AllReplayable(e.types)
  {
    SomeSource(g, d.wake);
    TopicTypes(OfKind(d.wake, TopicEntry));
  }

  lemma {:induction false} KindsPartition(es: seq<WakeEntry>)
    ensures |es| == |OfKind(es, MentionEntry)| + |OfKind(es, TopicEntry)| + |OfKind(es, ScheduleEntry)|
                    + |OfKind(es, SubjectEntry)| + |OfKind(es, OtherEntry)|
  {
    if es != [] { KindsPartition(es[..|es| - 1]); }
  }

  /** What the mapping says, entry by entry and field by field: persona and home topic are the declaration's; a
      topic, schedule or subject entry is a source of its kind at the place its rank gives, with its own path
      and types (turn.post when it names none), name, pattern and parsed ttl, or subject. */
  lemma MappingSays(g: Grammar, base: EngineConfig, d: Declaration, i: nat)
    requires ValidDeclaration(g, d) && d.role.Agent? && i < |d.wake|
    ensures var c := Mapped(g, base, d);
            c.persona == d.persona && c.homeTopic == d.topic && c.retries == base.retries
            && c.runTimeout == base.runTimeout
            && c.instructions == (if d.instructions.Some? then d.instructions else base.instructions)
    ensures var s, e := Mapped(g, base, d).wakes.value, d.wake[i];
            var r := |Places(d.wake, e.kind, i)|;
            match e.kind
            case MentionEntry => s.mention
            case TopicEntry =>
              && r < |s.topics| && s.topics[r].path == e.path
              && s.topics[r].types == (if e.types == [] then ["turn.post"] else e.types)
            case ScheduleEntry =>
              && r < |s.schedules| && s.schedules[r].name == e.name && s.schedules[r].pattern == e.pattern
              && (if e.ttl == "" then s.schedules[r].ttl == 0 else g.duration(e.ttl) == Some(s.schedules[r].ttl))
            case SubjectEntry => r < |s.subjects| && s.subjects[r] == e.subject
            case OtherEntry => false
    ensures Mapped(g, base, d).wakes.value.mention <==> exists k :: 0 <= k < |d.wake| && d.wake[k].kind.MentionEntry?
  {
    EntryRanked(d.wake, i);
    assert ValidEntry(g, d.wake[i]);
    MentionIffEntry(d.wake);
  }

  lemma MentionIffEntry(es: seq<WakeEntry>)
    ensures OfKind(es, MentionEntry) != [] <==> exists k :: 0 <= k < |es| && es[k].kind.MentionEntry?
  {
    Inhabited(OfKind(es, MentionEntry));
    if k :| 0 <= k < |es| && es[k].kind.MentionEntry? { assert es[k] in OfKind(es, MentionEntry); }
  }

  /** Every declared entry is exactly one source of the engine: nothing is dropped, merged or invented. */
  lemma EveryEntryIsOneSource(g: Grammar, base: EngineConfig, d: Declaration)
    requires ValidDeclaration(g, d) && d.role.Agent?
    ensures var s := Mapped(g, base, d).wakes.value;
            |d.wake| == (if s.mention then 1 else 0) + |s.topics| + |s.schedules| + |s.subjects|
  {
    KindsPartition(d.wake);
    SomeSource(g, d.wake);
    AtMostOneMention(g, d.wake);
  }

  lemma NoEarlierMention(g: Grammar, init: seq<WakeEntry>, last: WakeEntry)
    requires ValidWake(g, init + [last]) && last.kind.MentionEntry?
    ensures OfKind(init, MentionEntry) == []
  {
    var es := init + [last];
    forall e | e in init ensures !e.kind.MentionEntry? {
      var i :| 0 <= i < |init| && init[i] == e;
      assert !Clash(es[i], es[|init|]);
    }
    Inhabited(OfKind(init, MentionEntry));
  }

  lemma {:induction false} AtMostOneMention(g: Grammar, es: seq<WakeEntry>)
    requires ValidWake(g, es)
    ensures |OfKind(es, MentionEntry)| <= 1
  {
    if es != [] {
      var init, last := es[..|es| - 1], es[|es| - 1];
      assert es == init + [last];
      AtMostOneMention(g, init);
      if last.kind.MentionEntry? { NoEarlierMention(g, init, last); }
    }
  }

  /*** Start-up ***/

  /** Budget.Validate. */
  predicate Meaningful(b: Budget) {
    b.maxHops >= 0 && b.windowMax >= 0 && b.windowPer >= 0 && !(b.windowMax > 0 && b.windowPer == 0)
  }

  /** Template.Validate. */
  predicate Usable(t: Template) {
    && |t.command| > 0 && t.prompt != ""
    && t.terminal.typeField != "" && t.terminal.terminalValue != "" && t.terminal.textField != ""
    && (t.terminal.statusField == "" <==> t.terminal.successValue == "")
  }

  function Defaulted(g: Grammar, c: EngineConfig): EngineConfig {
    c.(retries := if c.retries == 0 then 2 else c.retries,
       runTimeout := if c.runTimeout == 0 then 150 * SECOND else c.runTimeout,
       budget := if !c.unbudgeted && c.budget == UNSET then Knobs(g, DEFAULT_BUDGET) else c.budget)
  }

  /** The wrapped agent, as far as its configuration goes. */
  class Wrapper {
    var config: EngineConfig

    constructor (config: EngineConfig)
      ensures this.config == config
    {
      this.config := config;
    }

    method ApplyDefaults(g: Grammar)
      modifies this
      ensures config == Defaulted(g, old(config))
      ensures config.retries == (if old(config).retries == 0 then 2 else old(config).retries)
      ensures config.runTimeout == (if old(config).runTimeout == 0 then 150_000_000_000 else old(config).runTimeout)
      ensures GoDurations(g) && !old(config).unbudgeted && old(config).budget == Budget(0, 0, 0) ==>
                config.budget == Budget(4, 8, 600_000_000_000)
      ensures old(config).unbudgeted || old(config).budget != Budget(0, 0, 0) ==> config.budget == old(config).budget
    {
      if config.retries == 0 { config := config.(retries := 2); }
      if config.runTimeout == 0 { config := config.(runTimeout := 150 * SECOND); }
      if !config.unbudgeted && config.budget == UNSET {
        var def := DEFAULT_BUDGET;
        var per := g.duration(def.window.value.per);
        config := config.(budget := Budget(def.maxHops, def.window.value.max, if per.Some? then per.value else 0));
      }
    }

    /** What Run does with its configuration before it serves anything: a refusal leaves it as it was. */
    method Prepare(g: Grammar) returns (ok: bool)
      modifies this
      ensures ok ==> var t, b := old(config).template, old(config).budget;
                     && t.command != [] && t.prompt != "" && t.terminal.typeField != ""
                     && t.terminal.terminalValue != "" && t.terminal.textField != ""
                     && (t.terminal.statusField == "" <==> t.terminal.successValue == "")
                     && b.maxHops >= 0 && b.windowMax >= 0 && b.windowPer >= 0
                     && (b.windowMax > 0 ==> b.windowPer > 0)
      ensures ok <==> Usable(old(config).template) && Meaningful(old(config).budget)
                      && (old(config).wakes.Some? ==> RunnableSet(old(config).wakes.value, old(config).homeTopic))
      ensures config == if ok then Defaulted(g, old(config)) else old(config)
    {
      if !Usable(config.template) { return false; }
      if !Meaningful(config.budget) { return false; }
      if config.wakes.Some? {
        var runnable := ValidateSet(config.wakes.value, config.homeTopic);
        if !runnable { return false; }
      }
      ApplyDefaults(g);
      return true;
    }
  }

  /*** What admission enforces ***/

  /** The configuration as the per-wake protocol sees it. */
  function Engine(c: EngineConfig): W.Config {
    W.Config(c.persona, c.retries, c.budget, c.unbudgeted, c.instructions.Some?)
  }

  /** The protocol turns an unanswered wake away on its budget. */
  predicate Refuses(cfg: W.Config, view: seq<Turn>, w: W.Wake, now: int) {
    var first := W.AfterFirstRead(cfg, w, view);
    var after := if first.Admitting? then W.AfterClock(cfg, w, view, now) else first;
    after.Done? && after.outcome.Refused?
  }

  /** The budget block read as its text says: each non-zero part binds, a zero part says nothing. */
  predicate Obeys(g: Grammar, b: BudgetSpec, view: seq<Turn>, trigger: Turn, persona: string, now: int) {
    && (b.maxHops > 0 ==> Hops(view, trigger) + 1 <= b.maxHops)
    && (b.window.Some? && b.window.value.max > 0 && g.duration(b.window.value.per).Some? ==>
          OwnAfter(view, persona, now - g.duration(b.window.value.per).value) < b.window.value.max)
  }

  function EffectiveBudget(d: Declaration): BudgetSpec { if d.budget.Some? then d.budget.value else DEFAULT_BUDGET }

  predicate AllZero(b: BudgetSpec) { b.maxHops == 0 && (b.window.None? || b.window.value.max == 0) }

  predicate Untouched(base: EngineConfig) { base.budget == UNSET && !base.unbudgeted }

  ghost predicate GoDurations(g: Grammar) { g.duration("10m") == Some(600 * SECOND) }

  /*** Views that some budget refuses ***/

  function Rung(k: nat): OpId { if k == 0 then Fresh(0) else Outcome(Rung(k - 1), "a") }

  function RungTurn(k: nat): Turn { Turn(Rung(k), "a", "", "", 0) }

  /** A chain of m provable hops. */
  function Ladder(m: nat): seq<Turn> { seq(m, k requires 0 <= k < m => RungTurn(k)) }

  lemma {:induction false} RungDepth(k: nat)
    ensures Depth(Rung(k)) == k
  {
    if k > 0 { RungDepth(k - 1); }
  }

  ghost predicate IsLadder(view: seq<Turn>) { forall k | 0 <= k < |view| :: view[k] == RungTurn(k) }

  lemma LadderParent(view: seq<Turn>, k: nat) returns (p: Turn)
    requires IsLadder(view) && 0 < k <= |view|
    ensures p == RungTurn(k - 1)
    ensures Hops(view, RungTurn(k)) == Hops(view, p) + 1
  {
    var op := RungTurn(k);
    ParentsAre(view, op);
    assert view[k - 1] in view && Binds(view[k - 1], op);
    assert view[k - 1] in Parents(view, op);
    p := LastParent(view, op);
    var j :| 0 <= j < |view| && view[j] == p;
    RungDepth(j);
    RungDepth(k - 1);
  }

  lemma {:induction false} LadderChain(view: seq<Turn>, k: nat)
    requires IsLadder(view) && k <= |view|
    ensures Hops(view, RungTurn(k)) >= k
  {
    if k > 0 {
      var p := LadderParent(view, k);
      LadderChain(view, k - 1);
    }
  }

  /** n own turns, all stamped now. */
  function Burst(persona: string, n: nat): seq<Turn> {
    seq(n, k requires 0 <= k < n => Turn(Fresh(k), persona, TURN_POST, "", 0))
  }

  lemma {:induction false} BurstCounts(persona: string, n: nat, cut: int, k: nat)
    requires k <= n && cut < 0
    ensures OwnAfterTo(Burst(persona, n), persona, cut, k) == k
  {
    if k > 0 { BurstCounts(persona, n, cut, k - 1); }
  }

  /** Every block that is not all zero forbids some unanswered wake over some view. */
  lemma SomeWakeDisobeys(g: Grammar, b: BudgetSpec, persona: string) returns (view: seq<Turn>, w: W.Wake)
    requires ValidBudget(g, b) && !AllZero(b)
    ensures WakeOpID(w.opId, persona) !in Ids(view)
    ensures !Obeys(g, b, view, W.TriggerTurn(view, w), persona, 0)
  {
    if b.maxHops > 0 {
      view := Ladder(b.maxHops);
      w := W.Wake("", Rung(b.maxHops), "a", W.Unset, "");
      RungDepth(b.maxHops);
      forall t | t in view ensures Depth(t.opId) < b.maxHops {
        var j :| 0 <= j < b.maxHops && view[j] == t;
        RungDepth(j);
      }
      LadderChain(view, b.maxHops);
    } else {
      var n := b.window.value.max;
      view := Burst(persona, n);
      w := W.Wake("", External(""), "", W.Unset, "");
      BurstCounts(persona, n, 0 - g.duration(b.window.value.per).value, n);
    }
  }

  /** Knobs lose nothing of a valid block. */
  lemma KnobsDecide(g: Grammar, b: BudgetSpec, view: seq<Turn>, trigger: Turn, persona: string, now: int)
    requires ValidBudget(g, b)
    ensures Decide(Knobs(g, b), view, trigger, persona, now).Admitted? <==> Obeys(g, b, view, trigger, persona, now)
  {}

  function Started(g: Grammar, base: EngineConfig, d: Declaration): EngineConfig { Defaulted(g, Mapped(g, base, d)) }

  lemma StartedBudget(g: Grammar, base: EngineConfig, d: Declaration)
    requires GoDurations(g) && ValidDeclaration(g, d) && d.role.Agent?
    requires d.budget.None? ==> Untouched(base)
    ensures ValidBudget(g, EffectiveBudget(d))
    ensures Started(g, base, d).budget == Knobs(g, EffectiveBudget(d)) && Started(g, base, d).persona == d.persona
    ensures Started(g, base, d).unbudgeted == (base.unbudgeted || AllZero(EffectiveBudget(d)))
    ensures Meaningful(Mapped(g, base, d).budget) && Meaningful(Started(g, base, d).budget)
  {}

  lemma RefusesIffDisobeys(g: Grammar, b: BudgetSpec, cfg: W.Config, view: seq<Turn>, w: W.Wake, now: int)
    requires ValidBudget(g, b) && cfg.budget == Knobs(g, b)
    requires W.OutcomeId(cfg, w) !in Ids(view)
    ensures !cfg.unbudgeted ==>
              (Refuses(cfg, view, w, now) <==> !Obeys(g, b, view, W.TriggerTurn(view, w), cfg.persona, now))
    ensures cfg.unbudgeted ==> !Refuses(cfg, view, w, now)
    ensures AllZero(b) ==> Obeys(g, b, view, W.TriggerTurn(view, w), cfg.persona, now)
  {
    KnobsDecide(g, b, view, W.TriggerTurn(view, w), cfg.persona, now);
  }

  /** Every unanswered wake over every view is refused exactly when it breaks a declared part. */
  ghost predicate Enforces(g: Grammar, cfg: W.Config, b: BudgetSpec) {
    forall view, w, now | W.OutcomeId(cfg, w) !in Ids(view) ::
      Refuses(cfg, view, w, now) <==> !Obeys(g, b, view, W.TriggerTurn(view, w), cfg.persona, now)
  }

  /** What the engine enforces after mapping and defaulting is what the declaration says: the knobs pass the
      engine's own check, an absent block over an untouched base means 4 hops and 8 turns in ten minutes,
      and the budget is enforced as declared. There is one exception, and it is exact: a base already opted
      out of budgets silently wins over any block that is not all zero. */
  lemma DeclaredKnobsAreEnforced(g: Grammar, base: EngineConfig, d: Declaration)
    requires GoDurations(g) && ValidDeclaration(g, d) && d.role.Agent?
    requires d.budget.None? ==> Untouched(base)
    ensures Meaningful(Mapped(g, base, d).budget) && Meaningful(Started(g, base, d).budget)
    ensures d.budget.None? ==> Started(g, base, d).budget == Budget(4, 8, 600 * SECOND)
    ensures Enforces(g, Engine(Started(g, base, d)), EffectiveBudget(d))
            <==> !base.unbudgeted || AllZero(EffectiveBudget(d))
  {
    var b, cfg := EffectiveBudget(d), Engine(Started(g, base, d));
    StartedBudget(g, base, d);
    forall view, w, now | W.OutcomeId(cfg, w) !in Ids(view)
      ensures !base.unbudgeted || AllZero(b) ==>
                (Refuses(cfg, view, w, now) <==> !Obeys(g, b, view, W.TriggerTurn(view, w), cfg.persona, now))
    {
      RefusesIffDisobeys(g, b, cfg, view, w, now);
    }
    if base.unbudgeted && !AllZero(b) {
      var view, w := SomeWakeDisobeys(g, b, d.persona);
      RefusesIffDisobeys(g, b, cfg, view, w, 0);
    }
  }
}
