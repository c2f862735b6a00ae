/** Whole runs of the profile store: it behaves as a table from ids to configurations, and the live
    file stands for the active profile's configuration. */
module ProfileRuns {
  import opened Text
  import opened WebConfig
  import opened ProfileText
  import opened ProfileIds
  import opened ProfileStore
  import RoundTrip
  import StableSort

  ghost predicate LawfulEnv(e: Env) {
    LawfulJson(e.json) && Lawful(e.floats)
  }

  /** What every reachable state keeps. Texts agree up to metadata, which is more than agreeing as
      configurations. */
  ghost predicate Inv(s: Files) {
    && (forall id :: id in s.profiles ==> id != "" && SlugText(id))
    && ActiveId(s) in s.profiles
    && Strip(s.profiles[ActiveId(s)]) == (if s.live.Some? then Strip(s.live.value) else DEFAULT_BODY)
  }

  // --------------------------------------------------------------- invariance

  lemma MarkerReadsBack(id: string)
    requires SlugText(id)
    ensures Trim(id + "\n") == id
  {
    TrimAppendSpaces(id, "\n");
    SlugIsTrimmed(id);
  }

  /** From an installation without profiles, the first request sets the invariant up. */
  lemma BootstrapSetsUp(e: Env, s: Files, now: int)
    requires LawfulEnv(e) && s.profiles == map[]
    ensures Inv(Bootstrap(e, s, now))
  {
    hide Strip, Render, Trim, Lawful, LawfulJson;
    DefaultIsSlug();
    MarkerReadsBack("default");
    var body := if s.live.Some? then s.live.value else DEFAULT_BODY;
    DefaultIsStripped();
    StripRender(e.json, Meta("Default", DEFAULT_DESCRIPTION, now, now), body);
  }

  lemma DefaultIsStripped()
    ensures Strip(DEFAULT_BODY) == DEFAULT_BODY
  {
    hide Strip;
    var line := "# kbm-mapper configuration";
    assert line + [NL] == DEFAULT_BODY;
    PrefixDiffers(line, META, 2);
    LineStripped(line);
  }

  lemma DefaultIsSlug()
    ensures SlugText("default")
  {}

  /** Requests that pick a new id find one. */
  ghost predicate Room(s: Files, r: Request) {
    (r.CreateRequest? || r.ImportRequest?) ==> |s.profiles| < 1000
  }

  lemma AddKeepsInv(s: Files, id: string, text: string)
    requires Inv(s) && id !in s.profiles && id != "" && SlugText(id)
    ensures Inv(s.(profiles := s.profiles[id := text]))
  {
    hide Strip, SlugText, Trim;
  }

  lemma SaveKeepsInv(e: Env, s: Files, c: Config, now: int)
    requires LawfulEnv(e) && Inv(s)
    ensures Inv(SaveStep(e, s, c, now))
  {
    hide Strip, Render, ParseMeta, Save, Lawful, SlugText;
    StripRender(e.json, ParseMeta(e.json, s.profiles[ActiveId(s)]).(modified := now), Save(e.floats, c));
  }

  lemma CreateKeepsInv(e: Env, s: Files, name: string, description: string, copyFrom: string, outside: Option<string>, now: int)
    requires Inv(s) && |s.profiles| < 1000
    ensures Inv(CreateStep(e, s, name, description, copyFrom, outside, now))
  {
    hide Strip, Render, UniqueId, SlugText;
    assert ActiveId(s) in s.profiles && s.profiles != map[];
    KeysCount(s.profiles);
    FreshWithRoom(s.profiles.Keys, name);
    UniqueIsSlug(s.profiles.Keys, name);
    var source := SourceOf(s, copyFrom, outside);
    if Trim(name) != "" && source.Some? {
      AddKeepsInv(s, UniqueId(s.profiles.Keys, name), Render(e.json, Meta(name, description, now, now), source.value));
    }
  }

  lemma UpdateKeepsInv(e: Env, s: Files, id: string, name: string, description: string, now: int)
    requires LawfulEnv(e) && Inv(s)
    ensures Inv(UpdateStep(e, s, id, name, description, now))
  {
    hide Strip, Render, ParseMeta, Lawful, SlugText;
    if id in s.profiles {
      var previous := ParseMeta(e.json, s.profiles[id]);
      StripRender(e.json, Meta(if Trim(name) != "" then name else previous.name, description, previous.created, now), s.profiles[id]);
    }
  }

  lemma ActivateKeepsInv(s: Files, id: string)
    requires Inv(s)
    ensures Inv(ActivateStep(s, id))
  {
    hide Strip, Trim, SlugText;
    if id in s.profiles {
      MarkerReadsBack(id);
      StripIdempotent(s.profiles[id]);
    }
  }

  lemma ImportKeepsInv(e: Env, s: Files, sent: string, now: int)
    requires Inv(s) && |s.profiles| < 1000
    ensures Inv(ImportStep(e, s, sent, now))
  {
    hide Inv, Render, ParseMeta, UniqueId, SlugText, Received;
    var body := Received(sent);
    var meta := ImportMeta(e, body, now);
    KeysCount(s.profiles);
    FreshWithRoom(s.profiles.Keys, meta.name);
    UniqueIsSlug(s.profiles.Keys, meta.name);
    AddKeepsInv(s, UniqueId(s.profiles.Keys, meta.name), Render(e.json, meta, body));
  }

  lemma StepKeepsInv(e: Env, s: Files, r: Request)
    requires LawfulEnv(e) && Inv(s) && Room(s, r)
    ensures Inv(Step(e, s, r))
  {
    hide SaveStep, CreateStep, UpdateStep, ActivateStep, ImportStep, Strip, LawfulEnv;
    match r {
      case SaveRequest(c, now) => SaveKeepsInv(e, s, c, now);
      case ListRequest(now) => assert ActiveId(s) in s.profiles && s.profiles != map[];
      case CreateRequest(name, description, copyFrom, outside, now) => CreateKeepsInv(e, s, name, description, copyFrom, outside, now);
      case UpdateRequest(id, name, description, now) => UpdateKeepsInv(e, s, id, name, description, now);
      case DeleteRequest(id) =>
      case ActivateRequest(id) => ActivateKeepsInv(s, id);
      case ImportRequest(sent, now) => ImportKeepsInv(e, s, sent, now);
    }
  }

  lemma KeysCount(m: map<string, string>)
    ensures |m.Keys| == |m|
  {}

  /** Every prefix of the run leaves room for its next request. */
  ghost predicate Roomy(e: Env, s: Files, rs: seq<Request>) {
    forall n :: 0 <= n < |rs| ==> Room(Run(e, s, rs[..n]), rs[n])
  }

  lemma {:induction false} RunKeepsInv(e: Env, s: Files, rs: seq<Request>)
    requires LawfulEnv(e) && Inv(s) && Roomy(e, s, rs)
    ensures Inv(Run(e, s, rs))
    decreases |rs|
  {
    hide Inv, Room, LawfulEnv, Step;
    if rs != [] {
      var init := rs[..|rs| - 1];
      forall n | 0 <= n < |init| ensures Room(Run(e, s, init[..n]), init[n]) {
        assert init[..n] == rs[..n];
      }
      RunKeepsInv(e, s, init);
      StepKeepsInv(e, Run(e, s, init), rs[|rs| - 1]);
    }
  }

  // ---------------------------------------------------------------- agreement

  /** The web tool reads the same configuration from the live file and from the active profile. */
  ghost predicate Agreement(e: Env, s: Files) {
    HasActive(s) && LoadFile(e.floats, s.live) == Load(e.floats, s.profiles[ActiveId(s)])
  }

  /** Under the invariant the two agree exactly when there is a live file: without one the parser
      stops before it fills in the default chord. */
  lemma AgreesIffLive(e: Env, s: Files)
    requires Inv(s)
    ensures Agreement(e, s) <==> s.live.Some?
    ensures Load(e.floats, s.profiles[ActiveId(s)]) == Load(e.floats, if s.live.Some? then s.live.value else DEFAULT_BODY)
  {
    var body := if s.live.Some? then s.live.value else DEFAULT_BODY;
    StripInvisible(e.floats, s.profiles[ActiveId(s)]);
    StripInvisible(e.floats, body);
    DefaultIsStripped();
    hide Strip;
    if s.live.None? {
      assert Load(e.floats, body).hotkey != [];
    }
  }

  /** A fresh installation without a live file: the active profile has the default chord, the missing
      file reads as an empty one. */
  lemma NoLiveFileDisagrees(e: Env, now: int)
    requires LawfulEnv(e)
    ensures var s := Bootstrap(e, Files(map[], None, None), now); Inv(s) && !Agreement(e, s)
  {
    var s0 := Files(map[], None, None);
    hide Inv, Agreement, LawfulEnv;
    BootstrapSetsUp(e, s0, now);
    AgreesIffLive(e, Bootstrap(e, s0, now));
  }

  lemma LiveStays(e: Env, s: Files, r: Request)
    ensures s.live.Some? ==> Step(e, s, r).live.Some?
  {}

  lemma {:induction false} LiveStaysOnRun(e: Env, s: Files, rs: seq<Request>)
    ensures s.live.Some? ==> Run(e, s, rs).live.Some?
    decreases |rs|
  {
    if rs != [] {
      LiveStaysOnRun(e, s, rs[..|rs| - 1]);
      LiveStays(e, Run(e, s, rs[..|rs| - 1]), rs[|rs| - 1]);
    }
  }

  /** The claim of the profile system: starting from an installation that has a live file and no
      profiles, after the start-up bootstrap and any requests, the active id names a profile and
      the live file means what that profile means. */
  lemma LiveMeansActive(e: Env, s: Files, now: int, rs: seq<Request>)
    requires LawfulEnv(e) && s.profiles == map[] && s.live.Some?
    requires Roomy(e, Bootstrap(e, s, now), rs)
    ensures Agreement(e, Run(e, Bootstrap(e, s, now), rs))
  {
    var s0 := Bootstrap(e, s, now);
    BootstrapSetsUp(e, s, now);
    RunKeepsInv(e, s0, rs);
    LiveStaysOnRun(e, s0, rs);
    AgreesIffLive(e, Run(e, s0, rs));
  }

  // --------------------------------------------------------------- refinement

  /** The store as its users see it: a configuration and metadata per id, and which id is active. */
  datatype Table = Table(configs: map<string, Config>, metas: map<string, Meta>, active: string)

  function Meaning(e: Env, s: Files): Table {
    Table(map id | id in s.profiles :: Load(e.floats, s.profiles[id]),
          map id | id in s.profiles :: ParseMeta(e.json, s.profiles[id]), ActiveId(s))
  }

  function DefaultConfig(e: Env): Config {
    Load(e.floats, DEFAULT_BODY)
  }

  function MetaIn(t: Table, id: string): Meta {
    if id in t.metas then t.metas[id] else NO_META
  }

  datatype Entry = Entry(id: string, config: Config, meta: Meta)

  /** The one entry a request writes, if it writes any: nothing is said of texts, headers or files. A
      save keeps name, description and creation time; an update keeps the configuration, the creation
      time and, if the new one is blank, the name. */
  function Written(e: Env, t: Table, r: Request): Option<Entry> {
    match r
    case SaveRequest(c, now) => Some(Entry(t.active, RoundTrip.Normal(c), MetaIn(t, t.active).(modified := now)))
    case CreateRequest(name, description, copyFrom, outside, now) =>
      if Trim(name) == "" || (copyFrom != "" && copyFrom !in t.configs && outside.None?) then None
      else
        var c := if copyFrom == "" then DefaultConfig(e)
                 else if copyFrom in t.configs then t.configs[copyFrom]
                 else Load(e.floats, outside.value);
        Some(Entry(UniqueId(t.configs.Keys, name), c, Meta(name, description, now, now)))
    case UpdateRequest(id, name, description, now) =>
      if id !in t.configs then None
      else
        var m := MetaIn(t, id);
        Some(Entry(id, t.configs[id], Meta(if Trim(name) == "" then m.name else name, description, m.created, now)))
    case ImportRequest(sent, now) =>
      var body := Received(sent);
      var m := ImportMeta(e, body, now);
      Some(Entry(UniqueId(t.configs.Keys, m.name), Load(e.floats, body), m))
    case _ => None
  }

  function Put(t: Table, w: Entry): Table {
    t.(configs := t.configs[w.id := w.config], metas := t.metas[w.id := w.meta])
  }

  /** What each request does to the table. */
  function TableStep(e: Env, t: Table, r: Request): Table {
    match r
    case DeleteRequest(id) => if id == t.active then t else t.(configs := t.configs - {id}, metas := t.metas - {id})
    case ActivateRequest(id) => if id in t.configs then t.(active := id) else t
    case _ => var w := Written(e, t, r); if w.Some? then Put(t, w.value) else t
  }

  ghost predicate WritableRequest(e: Env, r: Request) {
    r.SaveRequest? ==> RoundTrip.Writable(e.floats, r.config)
  }

  /** The metadata the request writes is carried exactly by its encoding. */
  predicate WritesValid(e: Env, t: Table, r: Request) {
    var w := Written(e, t, r);
    w.Some? ==> e.json.valid(w.value.meta)
  }

  /** Two tables with the same configurations and the same active id. */
  predicate SameConfigs(a: Table, b: Table) {
    a.configs == b.configs && a.active == b.active
  }

  /** The files mean the table, the metadata included if `exact`. */
  ghost predicate Means(e: Env, s: Files, t: Table, exact: bool) {
    SameConfigs(Meaning(e, s), t) && (exact ==> Meaning(e, s).metas == t.metas)
  }

  /** Writing an entry under its header writes it into the table. */
  lemma WriteMeans(e: Env, s: Files, w: Entry, body: string)
    requires LawfulEnv(e) && Load(e.floats, body) == w.config
    ensures Means(e, s.(profiles := s.profiles[w.id := Render(e.json, w.meta, body)]), Put(Meaning(e, s), w), e.json.valid(w.meta))
  {
    hide Load, Render, ParseMeta;
    RenderInvisible(e.json, e.floats, w.meta, body);
    if e.json.valid(w.meta) { ParseRender(e.json, w.meta, body); }
  }

  lemma MeaningKeys(e: Env, s: Files)
    ensures Meaning(e, s).configs.Keys == s.profiles.Keys
  {}

  /** The files after the request mean the table after it. */
  ghost predicate Refines(e: Env, s: Files, r: Request) {
    Means(e, Step(e, s, r), TableStep(e, Meaning(e, s), r), WritesValid(e, Meaning(e, s), r))
  }

  lemma SaveRefines(e: Env, s: Files, c: Config, now: int)
    requires LawfulEnv(e) && Inv(s) && RoundTrip.Writable(e.floats, c)
    ensures Refines(e, s, SaveRequest(c, now))
  {
    hide Load, Strip, Render, ParseMeta, Save, RoundTrip.Normal, RoundTrip.Writable, SlugText;
    RoundTrip.LoadSave(e.floats, c);
    WriteMeans(e, WriteLive(e, s, c), Written(e, Meaning(e, s), SaveRequest(c, now)).value, Save(e.floats, c));
  }

  lemma CreateRefines(e: Env, s: Files, name: string, description: string, copyFrom: string, outside: Option<string>, now: int)
    requires LawfulEnv(e) && Inv(s)
    ensures Refines(e, s, CreateRequest(name, description, copyFrom, outside, now))
  {
    hide Load, Strip, Render, ParseMeta, UniqueId, SlugText, Trim;
    MeaningKeys(e, s);
    assert s.profiles != map[] by { assert ActiveId(s) in s.profiles; }
    var w := Written(e, Meaning(e, s), CreateRequest(name, description, copyFrom, outside, now));
    if w.Some? { WriteMeans(e, s, w.value, SourceOf(s, copyFrom, outside).value); }
  }

  lemma UpdateRefines(e: Env, s: Files, id: string, name: string, description: string, now: int)
    requires LawfulEnv(e)
    ensures Refines(e, s, UpdateRequest(id, name, description, now))
  {
    hide Load, Render, ParseMeta, Trim;
    var w := Written(e, Meaning(e, s), UpdateRequest(id, name, description, now));
    if w.Some? { WriteMeans(e, s, w.value, s.profiles[id]); }
  }

  lemma ImportRefines(e: Env, s: Files, sent: string, now: int)
    requires LawfulEnv(e)
    ensures Refines(e, s, ImportRequest(sent, now))
  {
    hide Load, Render, ParseMeta, UniqueId, ImportMeta;
    MeaningKeys(e, s);
    WriteMeans(e, s, Written(e, Meaning(e, s), ImportRequest(sent, now)).value, Received(sent));
  }

  lemma DeleteRefines(e: Env, s: Files, id: string)
    ensures Refines(e, s, DeleteRequest(id))
  {
    hide Load, ParseMeta, Trim;
  }

  lemma ListRefines(e: Env, s: Files, now: int)
    requires Inv(s)
    ensures Refines(e, s, ListRequest(now))
  {
    hide Load, Strip, ParseMeta, SlugText, Trim;
    assert s.profiles != map[] by { assert ActiveId(s) in s.profiles; }
  }

  lemma ActivateRefines(e: Env, s: Files, id: string)
    requires Inv(s)
    ensures Refines(e, s, ActivateRequest(id))
  {
    hide Load, Strip, ParseMeta, SlugText, Trim;
    if id in s.profiles { ActivateSelects(e, s, id); }
  }

  /** Every request on the files is one operation on the table, metadata included as far as its encoding
      carries it. */
  lemma StepRefines(e: Env, s: Files, r: Request)
    requires LawfulEnv(e) && Inv(s) && WritableRequest(e, r)
    ensures Means(e, Step(e, s, r), TableStep(e, Meaning(e, s), r), WritesValid(e, Meaning(e, s), r))
  {
    assert Refines(e, s, r) by {
      hide Refines, Inv, LawfulEnv, RoundTrip.Writable;
      match r {
        case SaveRequest(c, now) => SaveRefines(e, s, c, now);
        case CreateRequest(name, description, copyFrom, outside, now) => CreateRefines(e, s, name, description, copyFrom, outside, now);
        case UpdateRequest(id, name, description, now) => UpdateRefines(e, s, id, name, description, now);
        case ImportRequest(sent, now) => ImportRefines(e, s, sent, now);
        case DeleteRequest(id) => DeleteRefines(e, s, id);
        case ListRequest(now) => ListRefines(e, s, now);
        case ActivateRequest(id) => ActivateRefines(e, s, id);
      }
    }
    hide Means, Step, TableStep, Meaning, WritesValid, Inv, LawfulEnv, WritableRequest;
  }

  lemma ActivateSelects(e: Env, s: Files, id: string)
    requires Inv(s) && id in s.profiles
    ensures ActiveId(ActivateStep(s, id)) == id && ActivateStep(s, id).profiles == s.profiles
  {
    MarkerReadsBack(id);
  }

  function TableRun(e: Env, t: Table, rs: seq<Request>): Table {
    if rs == [] then t else TableStep(e, TableRun(e, t, rs[..|rs| - 1]), rs[|rs| - 1])
  }

  /** Everything the run writes is carried exactly. */
  ghost predicate RunWritesValid(e: Env, t: Table, rs: seq<Request>) {
    forall n :: 0 <= n < |rs| ==> WritesValid(e, TableRun(e, t, rs[..n]), rs[n])
  }

  /** What a request does to configurations and to the active id does not depend on metadata. */
  lemma ConfigsApart(e: Env, a: Table, b: Table, r: Request)
    requires SameConfigs(a, b)
    ensures SameConfigs(TableStep(e, a, r), TableStep(e, b, r))
  {
    hide Load, UniqueId, RoundTrip.Normal, ImportMeta;
  }

  /** Over whole runs the files implement the table, and what is live is the active entry. */
  lemma {:induction false} RunRefines(e: Env, s: Files, rs: seq<Request>)
    requires LawfulEnv(e) && Inv(s) && Roomy(e, s, rs)
    requires forall r :: r in rs ==> WritableRequest(e, r)
    ensures Means(e, Run(e, s, rs), TableRun(e, Meaning(e, s), rs), RunWritesValid(e, Meaning(e, s), rs))
    ensures var t := TableRun(e, Meaning(e, s), rs);
            t.active in t.configs
            && (s.live.Some? ==> LoadFile(e.floats, Run(e, s, rs).live) == t.configs[t.active])
    decreases |rs|
  {
    hide Step, TableStep, Load, LoadFile, WritableRequest, WritesValid, Meaning, Inv;
    if rs != [] {
      var init, r := rs[..|rs| - 1], rs[|rs| - 1];
      forall n | 0 <= n < |init| ensures Room(Run(e, s, init[..n]), init[n]) {
        assert init[..n] == rs[..n];
      }
      RunRefines(e, s, init);
      RunKeepsInv(e, s, init);
      assert r in rs;
      StepRefines(e, Run(e, s, init), r);
      ConfigsApart(e, Meaning(e, Run(e, s, init)), TableRun(e, Meaning(e, s), init), r);
      if RunWritesValid(e, Meaning(e, s), rs) {
        forall n | 0 <= n < |init| ensures WritesValid(e, TableRun(e, Meaning(e, s), init[..n]), init[n]) {
          assert init[..n] == rs[..n];
        }
        assert Meaning(e, Run(e, s, init)) == TableRun(e, Meaning(e, s), init);
      }
    }
    RunKeepsInv(e, s, rs);
    LiveStaysOnRun(e, s, rs);
    AgreementMeans(e, Run(e, s, rs));
  }

  /** The first request finds an installation with one profile, the live settings under the name
      "Default". */
  lemma BootstrapTable(e: Env, s: Files, now: int)
    requires LawfulEnv(e) && s.profiles == map[]
    ensures var m := Meta("Default", DEFAULT_DESCRIPTION, now, now);
            var c := Load(e.floats, if s.live.Some? then s.live.value else DEFAULT_BODY);
            Means(e, Bootstrap(e, s, now), Table(map["default" := c], map["default" := m], "default"), e.json.valid(m))
  {
    hide Load, Render, ParseMeta, Strip, Trim, SlugText, Lawful, LawfulJson;
    var m := Meta("Default", DEFAULT_DESCRIPTION, now, now);
    var body := if s.live.Some? then s.live.value else DEFAULT_BODY;
    DefaultIsSlug();
    MarkerReadsBack("default");
    RenderInvisible(e.json, e.floats, m, body);
    if e.json.valid(m) { ParseRender(e.json, m, body); }
  }

  /** An update gives the profile a new name, unless that is blank, a new description and a new time of
      modification; its creation time, its configuration and all other files stay as they are. Without
      such a profile nothing happens. */
  lemma UpdateDescribes(e: Env, s: Files, id: string, name: string, description: string, now: int)
    requires LawfulEnv(e)
    ensures var t := Step(e, s, UpdateRequest(id, name, description, now));
            && t.marker == s.marker && t.live == s.live && t.profiles.Keys == s.profiles.Keys
            && (forall k :: k in s.profiles && k != id ==> t.profiles[k] == s.profiles[k])
            && (id in s.profiles ==>
                  && Load(e.floats, t.profiles[id]) == Load(e.floats, s.profiles[id])
                  && var m := ParseMeta(e.json, s.profiles[id]).(description := description, modified := now);
                     var m' := if Trim(name) == "" then m else m.(name := name);
                     e.json.valid(m') ==> ParseMeta(e.json, t.profiles[id]) == m')
  {
    hide Load, Render, ParseMeta, Trim, Lawful, LawfulJson;
    if id in s.profiles {
      var m := ParseMeta(e.json, s.profiles[id]);
      var m' := Meta(if Trim(name) != "" then name else m.name, description, m.created, now);
      RenderInvisible(e.json, e.floats, m', s.profiles[id]);
      if e.json.valid(m') { ParseRender(e.json, m', s.profiles[id]); }
    }
  }

  /** A save leaves the active profile its name, description and creation time. */
  lemma SaveKeepsName(e: Env, s: Files, c: Config, now: int)
    requires LawfulEnv(e) && Inv(s)
    requires e.json.valid(ParseMeta(e.json, s.profiles[ActiveId(s)]).(modified := now))
    ensures var t := Step(e, s, SaveRequest(c, now));
            && t.marker == s.marker && t.profiles.Keys == s.profiles.Keys
            && (forall k :: k in s.profiles && k != ActiveId(s) ==> t.profiles[k] == s.profiles[k])
            && ParseMeta(e.json, t.profiles[ActiveId(s)]) == ParseMeta(e.json, s.profiles[ActiveId(s)]).(modified := now)
  {
    hide Load, Save, Render, ParseMeta, Strip, Trim, SlugText, Lawful, LawfulJson;
    ParseRender(e.json, ParseMeta(e.json, s.profiles[ActiveId(s)]).(modified := now), Save(e.floats, c));
  }

  lemma AgreementMeans(e: Env, s: Files)
    requires Inv(s)
    ensures var t := Meaning(e, s);
            t.active in t.configs && (s.live.Some? ==> LoadFile(e.floats, s.live) == t.configs[t.active])
  {
    AgreesIffLive(e, s);
  }

  /** Saved settings outlive a switch: saving, activating another profile and coming back makes the
      saved configuration live again. */
  lemma SavedSettingsComeBack(e: Env, s: Files, c: Config, now: int, other: string)
    requires LawfulEnv(e) && Inv(s) && RoundTrip.Writable(e.floats, c) && other in s.profiles
    ensures var rs := [SaveRequest(c, now), ActivateRequest(other), ActivateRequest(ActiveId(s))];
            LoadFile(e.floats, Run(e, s, rs).live) == RoundTrip.Normal(c)
  {
    hide Load, Step, RoundTrip.Normal, RoundTrip.Writable, Inv, LoadFile, LawfulEnv, Meaning;
    var r0, r1, r2 := SaveRequest(c, now), ActivateRequest(other), ActivateRequest(ActiveId(s));
    var rs := [r0, r1, r2];
    var s1 := Step(e, s, r0);
    var s2 := Step(e, s1, r1);
    var s3 := Step(e, s2, r2);
    RunThree(e, s, r0, r1, r2);
    StepKeepsInv(e, s, r0);
    StepKeepsInv(e, s1, r1);
    StepKeepsInv(e, s2, r2);
    assert ActiveId(s) in s.profiles by { ActiveExists(s); }
    MeaningKeys(e, s);
    MeaningKeys(e, s1);
    MeaningKeys(e, s2);
    SaveMeans(e, s, c, now);
    ActivateMeans(e, s1, other);
    ActivateMeans(e, s2, ActiveId(s));
    LiveStays(e, s1, r1);
    LiveStays(e, s2, r2);
    AgreementMeans(e, s3);
    assert s1.live.Some? by { SaveIsLive(e, s, c, now); }
  }

  lemma SaveMeans(e: Env, s: Files, c: Config, now: int)
    requires LawfulEnv(e) && Inv(s) && RoundTrip.Writable(e.floats, c)
    ensures var t := Meaning(e, Step(e, s, SaveRequest(c, now)));
            t.active == ActiveId(s) && t.configs == Meaning(e, s).configs[ActiveId(s) := RoundTrip.Normal(c)]
  {
    hide Step, Load, LawfulEnv, Inv, RoundTrip.Normal, RoundTrip.Writable, WritesValid;
    StepRefines(e, s, SaveRequest(c, now));
  }

  lemma ActivateMeans(e: Env, s: Files, id: string)
    requires LawfulEnv(e) && Inv(s) && id in s.profiles
    ensures var t := Meaning(e, Step(e, s, ActivateRequest(id)));
            t.active == id && t.configs == Meaning(e, s).configs
  {
    hide Step, Load, LawfulEnv, Inv, WritesValid;
    StepRefines(e, s, ActivateRequest(id));
  }

  lemma RunThree(e: Env, s: Files, r0: Request, r1: Request, r2: Request)
    ensures Run(e, s, [r0, r1, r2]) == Step(e, Step(e, Step(e, s, r0), r1), r2)
  {
    hide Step;
    assert [r0, r1, r2][..2] == [r0, r1] && [r0, r1][..1] == [r0] && [r0][..0] == [];
    assert Run(e, s, [r0]) == Step(e, s, r0);
    assert Run(e, s, [r0, r1]) == Step(e, Step(e, s, r0), r1);
  }

  lemma SaveIsLive(e: Env, s: Files, c: Config, now: int)
    ensures Step(e, s, SaveRequest(c, now)).live == Some(Save(e.floats, c))
  {}

  lemma ActiveExists(s: Files)
    requires Inv(s)
    ensures ActiveId(s) in s.profiles
  {}

  /** An import adds one profile with the configuration, name, description and creation time of the
      part of the text that the handler reads. */
  lemma ImportAdds(e: Env, s: Files, sent: string, now: int) returns (id: string)
    requires LawfulEnv(e) && |s.profiles| < 1000 && e.json.valid(ImportMeta(e, Received(sent), now))
    ensures var t := Step(e, s, ImportRequest(sent, now));
            && id !in s.profiles && t.profiles.Keys == s.profiles.Keys + {id}
            && (forall k :: k in s.profiles ==> t.profiles[k] == s.profiles[k])
            && Load(e.floats, t.profiles[id]) == Load(e.floats, Received(sent))
            && SameMeta(ParseMeta(e.json, Received(sent)), ParseMeta(e.json, t.profiles[id]), now)
  {
    hide Load, Render, ParseMeta, UniqueId, Lawful, LawfulJson, Received;
    var body := Received(sent);
    var meta := ImportMeta(e, body, now);
    id := UniqueId(s.profiles.Keys, meta.name);
    KeysCount(s.profiles);
    FreshWithRoom(s.profiles.Keys, meta.name);
    RenderInvisible(e.json, e.floats, meta, body);
    ParseRender(e.json, meta, body);
  }

  /** Exporting a profile of at most a mebibyte and importing the text makes a second profile with the
      same configuration, name, description and creation time. */
  lemma ExportImport(e: Env, s: Files, id: string, now: int) returns (id': string)
    requires LawfulEnv(e) && |s.profiles| < 1000 && id in s.profiles && |s.profiles[id]| <= IMPORT_LIMIT
    requires e.json.valid(ImportMeta(e, s.profiles[id], now))
    ensures var t := Step(e, s, ImportRequest(s.profiles[id], now));
            && id' !in s.profiles && t.profiles.Keys == s.profiles.Keys + {id'}
            && (forall k :: k in s.profiles ==> t.profiles[k] == s.profiles[k])
            && Load(e.floats, t.profiles[id']) == Load(e.floats, s.profiles[id])
            && SameMeta(ParseMeta(e.json, s.profiles[id]), ParseMeta(e.json, t.profiles[id']), now)
  {
    hide Load, Step, ParseMeta, SameMeta;
    id' := ImportAdds(e, s, s.profiles[id], now);
  }

  /** Imported metadata: a blank name and a missing creation time are filled in. */
  predicate SameMeta(m: Meta, imported: Meta, now: int) {
    && imported.description == m.description && imported.modified == now
    && imported.name == (if Trim(m.name) == "" then "Imported" else m.name)
    && imported.created == (if m.created == 0 then now else m.created)
  }

  // ------------------------------------------------- texts over the import limit

  /** n times the same character. */
  function Repeated(c: char, n: nat): (s: string)
    ensures |s| == n && forall i :: 0 <= i < n ==> s[i] == c
  {
    seq(n, _ => c)
  }

  /** A comment line and one binding of the key A. */
  function OneBinding(comment: nat, action: string): string {
    Repeated('#', comment) + [NL] + ("key.A" + "=" + action)
  }

  lemma CommentSkips(n: nat)
    requires n > 0
    ensures ParseLine(Repeated('#', n)) == Skip
  {
    var line := Repeated('#', n);
    TrimFixed(line);
  }

  lemma OneBindingLoads(f: Floats, comment: nat, action: string)
    requires comment > 0 && NL !in action && Trim(action) == action
    ensures Load(f, OneBinding(comment, action)).bindings == [Binding("key", "A", action)]
  {
    hide Split, ApplyLine, ApplyPair, Trim, ParseLine, Repeated;
    var first, line := Repeated('#', comment), "key.A" + "=" + action;
    assert NL !in line;
    SplitFirst(first, line, NL);
    SplitAbsent(line, NL);
    assert [first] + [line] == [first, line] && [first, line][1..] == [line];
    CommentSkips(comment);
    assert ApplyLine(f, EMPTY, first) == EMPTY by { SkippedLine(f, EMPTY, first); }
    RoundTrip.ApplyOne(f, EMPTY, line);
    BindingLineApplies(f, action);
    assert ApplyLines(f, EMPTY, [first, line]) == ApplyLines(f, EMPTY, [line]);
    assert Split(OneBinding(comment, action), NL) == [first, line];
    StableSort.SortFixed(BindingLess, [Binding("key", "A", action)]);
  }

  lemma SkippedLine(f: Floats, c: Config, line: string)
    requires ParseLine(line) == Skip
    ensures ApplyLine(f, c, line) == c
  {}

  lemma BindingLineApplies(f: Floats, action: string)
    requires Trim(action) == action
    ensures ApplyLine(f, EMPTY, "key.A" + "=" + action).bindings == [Binding("key", "A", action)]
  {
    hide ParseLine, Trim, SetTuning;
    RoundTrip.WrittenPair("key.A", action);
    RoundTrip.NotTuning(f, EMPTY.tuning, "key.A", action);
    assert "key.A"[..4] == "key." && "key.A"[4..] == "A";
  }

  /** A text one line of which crosses the limit. */
  function CrossingText(n: nat): string
    requires n > IMPORT_LIMIT
  {
    OneBinding(IMPORT_LIMIT - 7, Repeated('b', n - IMPORT_LIMIT))
  }

  lemma CrossingCut(n: nat)
    requires n > IMPORT_LIMIT
    ensures |CrossingText(n)| == n && Received(CrossingText(n)) == OneBinding(IMPORT_LIMIT - 7, "")
  {
    hide Repeated;
    var head := Repeated('#', IMPORT_LIMIT - 7) + [NL] + ("key.A" + "=" + "");
    assert |head| == IMPORT_LIMIT;
    assert CrossingText(n) == head + Repeated('b', n - IMPORT_LIMIT);
  }

  lemma LettersAreTrimmed(n: nat)
    ensures Trim(Repeated('b', n)) == Repeated('b', n)
  {
    TrimFixed(Repeated('b', n));
  }

  lemma CrossingDiffers(f: Floats, n: nat)
    requires n > IMPORT_LIMIT
    ensures Load(f, Received(CrossingText(n))) != Load(f, CrossingText(n))
  {
    hide Load, OneBinding, Repeated;
    CrossingCut(n);
    LettersAreTrimmed(n - IMPORT_LIMIT);
    OneBindingLoads(f, IMPORT_LIMIT - 7, Repeated('b', n - IMPORT_LIMIT));
    OneBindingLoads(f, IMPORT_LIMIT - 7, "");
  }

  /** Every text of n characters keeps its configuration on the way in exactly when n is at most a
      mebibyte. */
  lemma ImportSize(f: Floats, n: nat)
    ensures (forall sent: string :: |sent| == n ==> Load(f, Received(sent)) == Load(f, sent)) <==> n <= IMPORT_LIMIT
  {
    hide Load, CrossingText;
    if n > IMPORT_LIMIT {
      CrossingCut(n);
      CrossingDiffers(f, n);
    }
  }

  /** So a longer profile need not survive an export and an import: here the new profile binds its key
      to another action than the old one. */
  lemma LongExportDiffers(e: Env, s: Files, id: string, now: int) returns (id': string)
    requires LawfulEnv(e) && |s.profiles| < 1000 && id in s.profiles
    requires |s.profiles[id]| > IMPORT_LIMIT && s.profiles[id] == CrossingText(|s.profiles[id]|)
    ensures var t := Step(e, s, ImportRequest(s.profiles[id], now));
            && id' !in s.profiles && id' in t.profiles
            && Load(e.floats, t.profiles[id']) != Load(e.floats, s.profiles[id])
  {
    hide Load, Render, ParseMeta, UniqueId, Lawful, LawfulJson, Received, CrossingText;
    var body := Received(s.profiles[id]);
    var meta := ImportMeta(e, body, now);
    id' := UniqueId(s.profiles.Keys, meta.name);
    KeysCount(s.profiles);
    FreshWithRoom(s.profiles.Keys, meta.name);
    RenderInvisible(e.json, e.floats, meta, body);
    CrossingDiffers(e.floats, |s.profiles[id]|);
  }

  // ------------------------------------------------------ requests not in turn

  /** The handlers take no lock. If another profile is activated between the two halves of a save, the
      live file and the active profile agree afterwards exactly when that profile already meant what
      was saved. */
  lemma ActivateInsideSave(e: Env, s: Files, c: Config, now: int, other: string)
    requires LawfulEnv(e) && Inv(s) && RoundTrip.Writable(e.floats, c) && other in s.profiles
    ensures var t := MirrorActive(e, Step(e, WriteLive(e, s, c), ActivateRequest(other)), c, now);
            Agreement(e, t) <==> Load(e.floats, s.profiles[other]) == RoundTrip.Normal(c)
  {
    hide Load, Strip, Render, ParseMeta, Save, RoundTrip.Normal, RoundTrip.Writable, Trim, Lawful, LawfulJson, SlugText;
    var s1 := WriteLive(e, s, c);
    var s2 := Step(e, s1, ActivateRequest(other));
    MarkerReadsBack(other);
    var meta := ParseMeta(e.json, s2.profiles[other]).(modified := now);
    RenderInvisible(e.json, e.floats, meta, Save(e.floats, c));
    RoundTrip.LoadSave(e.floats, c);
    StripInvisible(e.floats, s.profiles[other]);
  }
}
