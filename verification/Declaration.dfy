/**
 What a declaration may say (declaration/declaration.go). The grammars that live elsewhere (names,
 durations, schedule patterns, op types, subjects, URIs) are parameters.
*/
module Declaration {
  import opened Wrappers
  import opened Names
  import Artifact
  import Scope

  datatype Grammar = Grammar(
    name: string -> bool,
    duration: string -> Option<int>,
    pattern: string -> bool,
    opType: string -> bool,
    subject: string -> bool,
    blank: string -> bool,
    url: string -> Option<Artifact.Url>)

  datatype Lifecycle = Service | Function | Job | OtherLifecycle

  datatype EntryKind = MentionEntry | TopicEntry | ScheduleEntry | SubjectEntry | OtherEntry

  datatype WakeEntry = WakeEntry(kind: EntryKind, path: string, types: seq<string>, name: string, pattern: string,
      ttl: string, subject: string)

  datatype WindowSpec = WindowSpec(max: int, per: string)

  datatype BudgetSpec = BudgetSpec(maxHops: int, window: Option<WindowSpec>)

  datatype Instructions = Instructions(topic: string, artefact: string)

  datatype Declaration = Declaration(
    role: Scope.Role,
    lifecycle: Lifecycle,
    persona: string,
    topic: string,
    artifact: string,
    instructions: Option<Instructions>,
    capabilities: Option<Scope.Capabilities>,
    wake: seq<WakeEntry>,
    budget: Option<BudgetSpec>,
    model: Option<string>)

  const DEFAULT_BUDGET := BudgetSpec(4, Some(WindowSpec(8, "10m")))

  /*** Wake entries ***/

  predicate ValidEntry(g: Grammar, e: WakeEntry) {
    match e.kind
    case MentionEntry => e.types == [] && e.path == "" && e.name == "" && e.pattern == "" && e.ttl == ""
        && e.subject == ""
    case TopicEntry =>
      && e.name == "" && e.pattern == "" && e.ttl == "" && e.subject == ""
      && IsTopicPath(g.name, e.path)
      && (forall t | t in e.types :: g.opType(t))
    case ScheduleEntry =>
      && e.types == [] && e.path == "" && e.subject == ""
      && g.name(e.name) && g.pattern(e.pattern)
      && (e.ttl != "" ==> g.duration(e.ttl).Some? && g.duration(e.ttl).value > 0)
    case SubjectEntry =>
      && e.types == [] && e.path == "" && e.name == "" && e.pattern == "" && e.ttl == ""
      && g.subject(e.subject)
    case OtherEntry => false
  }

  function MentionOf(): WakeEntry { WakeEntry(MentionEntry, "", [], "", "", "", "") }

  function TopicOf(path: string, types: seq<string>): WakeEntry { WakeEntry(TopicEntry, path, types, "", "", "", "") }

  function ScheduleOf(name: string, pattern: string, ttl: string): WakeEntry {
    WakeEntry(ScheduleEntry, "", [], name, pattern, ttl, "")
  }

  function SubjectOf(subject: string): WakeEntry { WakeEntry(SubjectEntry, "", [], "", "", "", subject) }

  /** The valid entries: of each kind exactly those that set the kind's own fields, well-formed, and no other. */
  lemma ValidEntriesAre(g: Grammar, e: WakeEntry)
    ensures ValidEntry(g, e) <==>
              || e == MentionOf()
              || (exists path, types :: e == TopicOf(path, types) && IsTopicPath(g.name, path)
                                        && forall t | t in types :: g.opType(t))
              || (exists name, pattern, ttl :: e == ScheduleOf(name, pattern, ttl) && g.name(name) && g.pattern(pattern)
                                               && (ttl == "" || exists d :: g.duration(ttl) == Some(d) && d > 0))
              || (exists subject :: e == SubjectOf(subject) && g.subject(subject))
  {
    if ValidEntry(g, e) {
      match e.kind
      case MentionEntry => assert e == MentionOf();
      case TopicEntry => assert e == TopicOf(e.path, e.types);
      case ScheduleEntry =>
        assert e == ScheduleOf(e.name, e.pattern, e.ttl);
        if e.ttl != "" { assert g.duration(e.ttl) == Some(g.duration(e.ttl).value); }
      case SubjectEntry => assert e == SubjectOf(e.subject);
    }
  }

  /** Two entries that would collapse into one source. */
  predicate Clash(a: WakeEntry, b: WakeEntry) {
    && a.kind == b.kind
    && match a.kind
       case MentionEntry => true
       case TopicEntry => a.path == b.path
       case ScheduleEntry => a.name == b.name
       case SubjectEntry => a.subject == b.subject
       case OtherEntry => false
  }

  ghost predicate ValidWake(g: Grammar, entries: seq<WakeEntry>) {
    && (forall e | e in entries :: ValidEntry(g, e))
    && (forall i, j | 0 <= i < j < |entries| :: !Clash(entries[i], entries[j]))
  }

  /** The entries of one kind, in declared order. */
  function OfKind(entries: seq<WakeEntry>, kind: EntryKind): (r: seq<WakeEntry>)
    ensures forall e :: e in r <==> e in entries && e.kind == kind
  {
    if entries == [] then []
    else
      var last := entries[|entries| - 1];
      assert entries == entries[..|entries| - 1] + [last];
      OfKind(entries[..|entries| - 1], kind) + (if last.kind == kind then [last] else [])
  }

  lemma OneMore(entries: seq<WakeEntry>, i: nat, kind: EntryKind)
    requires i < |entries|
    ensures OfKind(entries[..i + 1], kind) == OfKind(entries[..i], kind)
              + (if entries[i].kind == kind then [entries[i]] else [])
  {
    assert entries[..i + 1][..i] == entries[..i];
  }

  /** The valid lists: valid entries, at most one mention, and no path, schedule name or subject twice. */
  lemma ValidListsAre(g: Grammar, entries: seq<WakeEntry>)
    ensures ValidWake(g, entries) <==>
              && (forall e | e in entries :: ValidEntry(g, e))
              && (forall i, j | 0 <= i < j < |entries| && entries[i].kind == entries[j].kind ::
                    && !entries[i].kind.MentionEntry?
                    && (entries[i].kind.TopicEntry? ==> entries[i].path != entries[j].path)
                    && (entries[i].kind.ScheduleEntry? ==> entries[i].name != entries[j].name)
                    && (entries[i].kind.SubjectEntry? ==> entries[i].subject != entries[j].subject))
  {
    forall i, j | 0 <= i < j < |entries| && ValidEntry(g, entries[i]) && entries[i].kind == entries[j].kind
      ensures !Clash(entries[i], entries[j]) <==>
                && !entries[i].kind.MentionEntry?
                && (entries[i].kind.TopicEntry? ==> entries[i].path != entries[j].path)
                && (entries[i].kind.ScheduleEntry? ==> entries[i].name != entries[j].name)
                && (entries[i].kind.SubjectEntry? ==> entries[i].subject != entries[j].subject) {}
  }

  /** Where the entries of one kind are, among the first n. */
  function Places(entries: seq<WakeEntry>, kind: EntryKind, n: nat): set<int>
    requires n <= |entries|
  {
    set k | 0 <= k < n && entries[k].kind == kind
  }

  lemma PlacesStep(entries: seq<WakeEntry>, kind: EntryKind, n: nat)
    requires 0 < n <= |entries|
    ensures |Places(entries, kind, n)| == |Places(entries, kind, n - 1)| + if entries[n - 1].kind == kind then 1 else 0
  {
    var before := Places(entries, kind, n - 1);
    assert Places(entries, kind, n) == if entries[n - 1].kind == kind then before + {n - 1} else before;
  }

  lemma {:induction false} KindRanked(entries: seq<WakeEntry>, kind: EntryKind, n: nat)
    requires n <= |entries|
    ensures |OfKind(entries[..n], kind)| == |Places(entries, kind, n)|
  {
    if n > 0 {
      KindRanked(entries, kind, n - 1);
      OneMore(entries, n - 1, kind);
      PlacesStep(entries, kind, n);
    } else {
      assert entries[..0] == [];
    }
  }

  lemma {:induction false} KindPrefix(entries: seq<WakeEntry>, kind: EntryKind, n: nat)
    requires n <= |entries|
    ensures OfKind(entries[..n], kind) <= OfKind(entries, kind)
  {
    if n == |entries| {
      assert entries[..n] == entries;
    } else {
      var init := entries[..|entries| - 1];
      assert init[..n] == entries[..n];
      KindPrefix(init, kind, n);
    }
  }

  /** An entry is found in its kind's list at the place its rank gives. */
  lemma EntryRanked(entries: seq<WakeEntry>, i: nat)
    requires i < |entries|
    ensures var kind := entries[i].kind;
            && |OfKind(entries, kind)| == |Places(entries, kind, |entries|)|
            && |Places(entries, kind, i)| < |OfKind(entries, kind)|
            && OfKind(entries, kind)[|Places(entries, kind, i)|] == entries[i]
  {
    var kind := entries[i].kind;
    KindRanked(entries, kind, i);
    KindRanked(entries, kind, |entries|);
    OneMore(entries, i, kind);
    KindPrefix(entries, kind, i + 1);
    assert entries[..|entries|] == entries;
  }

  ghost predicate NoneClashes(entries: seq<WakeEntry>, i: nat)
    requires i < |entries|
  {
    forall k | 0 <= k < i :: !Clash(entries[k], entries[i])
  }

  /** What tells the entries of a kind apart. */
  function Key(e: WakeEntry): string {
    match e.kind
    case TopicEntry => e.path
    case ScheduleEntry => e.name
    case SubjectEntry => e.subject
    case _ => ""
  }

  function Keys(entries: seq<WakeEntry>, kind: EntryKind, n: nat): set<string>
    requires n <= |entries|
  {
    set k | 0 <= k < n && entries[k].kind == kind :: Key(entries[k])
  }

  lemma KeysStep(entries: seq<WakeEntry>, kind: EntryKind, n: nat)
    requires n < |entries|
    ensures Keys(entries, kind, n + 1)
            == Keys(entries, kind, n) + if entries[n].kind == kind then {Key(entries[n])} else {}
  {}

  lemma ClashIffKnown(g: Grammar, entries: seq<WakeEntry>, i: nat)
    requires i < |entries| && ValidEntry(g, entries[i])
    ensures NoneClashes(entries, i) <==> Key(entries[i]) !in Keys(entries, entries[i].kind, i)
  {
    forall k | 0 <= k < i ensures Clash(entries[k], entries[i]) <==>
                                    entries[k].kind == entries[i].kind && Key(entries[k]) == Key(entries[i]) {}
  }

  /** validateWake: a counter for mentions and a seen-set for each other kind find every clash. */
  method ValidateWake(g: Grammar, entries: seq<WakeEntry>) returns (ok: bool)
    ensures ok <==> ValidWake(g, entries)
  {
    var mentions := 0;
    var paths: set<string>, names: set<string>, subjects: set<string> := {}, {}, {};
    for i := 0 to |entries|
      invariant forall k | 0 <= k < i :: ValidEntry(g, entries[k]) && NoneClashes(entries, k)
      invariant Keys(entries, MentionEntry, i) == if mentions > 0 then {""} else {}
      invariant 0 <= mentions <= 1
      invariant paths == Keys(entries, TopicEntry, i)
      invariant names == Keys(entries, ScheduleEntry, i)
      invariant subjects == Keys(entries, SubjectEntry, i)
    {
      var e := entries[i];
      assert e in entries;
      if !ValidEntry(g, e) { return false; }
      ClashIffKnown(g, entries, i);
      KeysStep(entries, MentionEntry, i);
      KeysStep(entries, TopicEntry, i);
      KeysStep(entries, ScheduleEntry, i);
      KeysStep(entries, SubjectEntry, i);
      match e.kind {
        case MentionEntry =>
          mentions := mentions + 1;
          if mentions > 1 { return false; }
        case TopicEntry =>
          if e.path in paths { return false; }
          paths := paths + {e.path};
        case ScheduleEntry =>
          if e.name in names { return false; }
          names := names + {e.name};
        case SubjectEntry =>
          if e.subject in subjects { return false; }
          subjects := subjects + {e.subject};
        case OtherEntry => assert false;
      }
    }
    return true;
  }

  /*** The budget block ***/

  predicate ValidBudget(g: Grammar, b: BudgetSpec) {
    && b.maxHops >= 0
    && (b.window.Some? ==>
          && b.window.value.max >= 0
          && (b.window.value.max > 0 ==>
              g.duration(b.window.value.per).Some? && g.duration(b.window.value.per).value > 0))
  }

  /** The valid budget blocks: no negative number, and a positive duration with every positive count. */
  lemma ValidBudgetsAre(g: Grammar, hops: int, max: int, per: string)
    ensures ValidBudget(g, BudgetSpec(hops, None)) <==> hops >= 0
    ensures ValidBudget(g, BudgetSpec(hops, Some(WindowSpec(max, per)))) <==>
              hops >= 0 && (max == 0 || (max > 0 && exists d :: g.duration(per) == Some(d) && d > 0))
  {
    if g.duration(per).Some? { assert g.duration(per) == Some(g.duration(per).value); }
  }

  /*** The whole declaration ***/

  predicate ValidModel(model: string) { model != "" && !("sk-" <= model) }

  ghost predicate ValidAgentParts(g: Grammar, d: Declaration) {
    && (d.instructions.Some? ==>
        IsTopicPath(g.name, d.instructions.value.topic) && !g.blank(d.instructions.value.artefact))
    && (d.capabilities.Some? ==> Scope.WellDeclared(g.name, d.capabilities.value))
    && ValidWake(g, d.wake)
    && (d.budget.Some? ==> ValidBudget(g, d.budget.value))
    && (d.model.Some? ==> ValidModel(d.model.value))
  }

  predicate EngineServed(d: Declaration) { d.role.Agent? && |d.wake| > 0 }

  ghost predicate ValidDeclaration(g: Grammar, d: Declaration) {
    && !d.role.OtherRole? && d.lifecycle.Service?
    && g.name(d.persona)
    && IsTopicPath(g.name, d.topic)
    && (d.artifact != "" || !EngineServed(d) ==> Artifact.Validate(g.name, g.url, d.artifact).None?)
    && (if d.role.Agent? then ValidAgentParts(g, d)
        else d.instructions.None? && d.capabilities.None? && |d.wake| == 0 && d.budget.None? && d.model.None?)
  }

  /** Why a declaration is refused, fault by fault; one without any of these faults is valid. */
  lemma RefusedExactlyFor(g: Grammar, d: Declaration)
    ensures !ValidDeclaration(g, d) <==>
              || (d.role != Scope.Agent && d.role != Scope.Tool)
              || d.lifecycle != Service
              || !g.name(d.persona)
              || d.topic == "" || (exists seg :: seg in Split(d.topic, '.') && !g.name(seg))
              || (d.artifact == "" && (d.role == Scope.Tool || d.wake == []))
              || (d.artifact != "" && Unreadable(g, d.artifact))
              || (d.role == Scope.Tool && (d.instructions.Some? || d.capabilities.Some? || d.wake != []
                                           || d.budget.Some? || d.model.Some?))
              || (d.role == Scope.Agent && AgentFault(g, d))
  {
    if d.artifact != "" { ReadableUnlessFault(g, d.artifact); }
    if d.model.Some? { CredentialStarts(d.model.value); }
    assert ValidAgentParts(g, d) <==> !AgentFault(g, d);
    assert IsTopicPath(g.name, d.topic) <==> d.topic != "" && forall seg | seg in Split(d.topic, '.') :: g.name(seg);
  }

  lemma CredentialStarts(model: string)
    ensures "sk-" <= model <==> exists key :: model == "sk-" + key
  {
    if "sk-" <= model { assert model == "sk-" + model[3..]; }
  }

  ghost predicate Unreadable(g: Grammar, artifact: string) {
    var r := Artifact.ArtifactRef(g.name, g.url, artifact);
    r.Err? || r.value == Artifact.FileRef("")
  }

  lemma ReadableUnlessFault(g: Grammar, artifact: string)
    requires artifact != ""
    ensures Artifact.Validate(g.name, g.url, artifact).None? <==> !Unreadable(g, artifact)
  {
    if Artifact.PREFIX <= artifact && Artifact.ParseRecord(g.name, artifact).Ok? {
      Artifact.PrintUndoesParse(g.name, artifact);
    }
  }

  ghost predicate AgentFault(g: Grammar, d: Declaration) {
    || (d.instructions.Some? && (!IsTopicPath(g.name, d.instructions.value.topic)
                                 || g.blank(d.instructions.value.artefact)))
    || (d.capabilities.Some? && !Scope.WellDeclared(g.name, d.capabilities.value))
    || !ValidWake(g, d.wake)
    || (d.budget.Some? && !ValidBudget(g, d.budget.value))
    || d.model == Some("") || (exists key :: d.model == Some("sk-" + key))
  }

  method Validate(g: Grammar, d: Declaration) returns (ok: bool)
    ensures ok <==> ValidDeclaration(g, d)
  {
    if d.role.OtherRole? || !d.lifecycle.Service? || !g.name(d.persona) { return false; }
    var path := ValidateTopicPath(g.name, d.topic);
    if !path { return false; }
    if d.artifact != "" || !EngineServed(d) {
      if Artifact.Validate(g.name, g.url, d.artifact).Some? { return false; }
    }
    if !d.role.Agent? {
      return d.instructions.None? && d.capabilities.None? && |d.wake| == 0 && d.budget.None? && d.model.None?;
    }
    if d.instructions.Some? {
      var topic := ValidateTopicPath(g.name, d.instructions.value.topic);
      if !topic || g.blank(d.instructions.value.artefact) { return false; }
    }
    if d.capabilities.Some? {
      var refusal := Scope.ValidateCapabilities(g.name, d.capabilities.value);
      if refusal.Some? { return false; }
    }
    var wake := ValidateWake(g, d.wake);
    if !wake || (d.budget.Some? && !ValidBudget(g, d.budget.value)) { return false; }
    return d.model.Some? ==> ValidModel(d.model.value);
  }

  /** Whatever a valid declaration names as its artifact can be read back as a reference; only an agent
      the engine serves may name none. */
  lemma ValidArtifactIsReadable(g: Grammar, d: Declaration)
    requires ValidDeclaration(g, d)
    requires g.url("").None? || g.url("").value.scheme != Artifact.FILE
    ensures d.artifact == "" ==> EngineServed(d)
    ensures d.artifact != "" ==>
              && Artifact.ArtifactRef(g.name, g.url, d.artifact).Ok?
              && (Artifact.ArtifactRef(g.name, g.url, d.artifact).value.RecordRef? <==> Artifact.PREFIX <= d.artifact)
  {
    Artifact.ValidIffReadable(g.name, g.url, d.artifact);
  }
}
