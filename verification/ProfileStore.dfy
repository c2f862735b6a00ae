/** The profile store: profile files, the active marker and the live configuration, and the web
    handlers that change them. */
module ProfileStore {
  import opened Text
  import opened WebConfig
  import opened ProfileText
  import opened ProfileIds
  import ConfigFile

  datatype Env = Env(json: Json, floats: Floats)

  /** The files: one text per profile id, the marker file and the live configuration file. */
  datatype Files = Files(profiles: map<string, string>, marker: Option<string>, live: Option<string>)

  const DEFAULT_BODY := "# kbm-mapper configuration\n"
  const DEFAULT_DESCRIPTION := "Auto-created from /etc/kbm-mapper.conf at first kbm-web start."

  /** A request to one of the handlers, with the time at which it is served. A create names the source
      of its copy by a path that may lead out of the profile directory; `outside` is the file there if
      it is none of the profiles. */
  datatype Request =
    | SaveRequest(config: Config, now: int)
    | ListRequest(now: int)
    | CreateRequest(name: string, description: string, copyFrom: string, outside: Option<string>, now: int)
    | UpdateRequest(id: string, name: string, description: string, now: int)
    | DeleteRequest(id: string)
    | ActivateRequest(id: string)
    | ImportRequest(body: string, now: int)

  /** `readActiveID`: "" when there is no marker. */
  function ActiveId(s: Files): string {
    if s.marker.None? then "" else Trim(s.marker.value)
  }

  /** `activeProfilePath` names an existing file. */
  predicate HasActive(s: Files) {
    ActiveId(s) != "" && ActiveId(s) in s.profiles
  }

  function Bootstrap(e: Env, s: Files, now: int): Files {
    if s.profiles != map[] then s
    else
      var body := if s.live.Some? then s.live.value else DEFAULT_BODY;
      var meta := Meta("Default", DEFAULT_DESCRIPTION, now, now);
      Files(map["default" := Render(e.json, meta, body)], Some("default" + "\n"), s.live)
  }

  /** The first half of a save: the live file is replaced. */
  function WriteLive(e: Env, s: Files, c: Config): Files {
    s.(live := Some(Save(e.floats, c)))
  }

  /** The second half: the text goes into the profile that the marker now names, if there is one. */
  function MirrorActive(e: Env, s: Files, c: Config, now: int): Files {
    if HasActive(s) then
      var meta := ParseMeta(e.json, s.profiles[ActiveId(s)]).(modified := now);
      s.(profiles := s.profiles[ActiveId(s) := Render(e.json, meta, Save(e.floats, c))])
    else s
  }

  function SaveStep(e: Env, s: Files, c: Config, now: int): Files {
    MirrorActive(e, WriteLive(e, s, c), c, now)
  }

  /** The text a create starts from: none if its source is missing. */
  function SourceOf(s: Files, copyFrom: string, outside: Option<string>): Option<string> {
    if copyFrom == "" then Some(DEFAULT_BODY)
    else if copyFrom in s.profiles then Some(s.profiles[copyFrom])
    else outside
  }

  function CreateStep(e: Env, s0: Files, name: string, description: string, copyFrom: string, outside: Option<string>, now: int): Files {
    if Trim(name) == "" then s0
    else
      var s := Bootstrap(e, s0, now);
      var source := SourceOf(s, copyFrom, outside);
      if source.None? then s
      else
        var id := UniqueId(s.profiles.Keys, name);
        s.(profiles := s.profiles[id := Render(e.json, Meta(name, description, now, now), source.value)])
  }

  function UpdateStep(e: Env, s: Files, id: string, name: string, description: string, now: int): Files {
    if id !in s.profiles then s
    else
      var previous := ParseMeta(e.json, s.profiles[id]);
      var meta := Meta(if Trim(name) != "" then name else previous.name, description, previous.created, now);
      s.(profiles := s.profiles[id := Render(e.json, meta, s.profiles[id])])
  }

  function DeleteStep(s: Files, id: string): Files {
    if ActiveId(s) == id then s else s.(profiles := s.profiles - {id})
  }

  /** `writeActiveID` and then `applyActiveToLive`, which goes back through the marker. */
  function ActivateStep(s: Files, id: string): Files {
    if id !in s.profiles then s
    else
      var s1 := s.(marker := Some(id + "\n"));
      if HasActive(s1) then s1.(live := Some(Strip(s.profiles[ActiveId(s1)]))) else s1
  }

  function ImportMeta(e: Env, body: string, now: int): Meta {
    var m := ParseMeta(e.json, body);
    Meta(if Trim(m.name) == "" then "Imported" else m.name, m.description, if m.created == 0 then now else m.created, now)
  }

  const IMPORT_LIMIT := 0x100000

  /** What the import handler reads of a request body: its first mebibyte. */
  function Received(sent: string): string {
    if |sent| > IMPORT_LIMIT then sent[..IMPORT_LIMIT] else sent
  }

  function ImportStep(e: Env, s: Files, sent: string, now: int): Files {
    var body := Received(sent);
    var meta := ImportMeta(e, body, now);
    s.(profiles := s.profiles[UniqueId(s.profiles.Keys, meta.name) := Render(e.json, meta, body)])
  }

  function Step(e: Env, s: Files, r: Request): Files {
    match r
    case SaveRequest(c, now) => SaveStep(e, s, c, now)
    case ListRequest(now) => Bootstrap(e, s, now)
    case CreateRequest(name, description, copyFrom, outside, now) => CreateStep(e, s, name, description, copyFrom, outside, now)
    case UpdateRequest(id, name, description, now) => UpdateStep(e, s, id, name, description, now)
    case DeleteRequest(id) => DeleteStep(s, id)
    case ActivateRequest(id) => ActivateStep(s, id)
    case ImportRequest(body, now) => ImportStep(e, s, body, now)
  }

  function Run(e: Env, s: Files, rs: seq<Request>): Files {
    if rs == [] then s else Step(e, Run(e, s, rs[..|rs| - 1]), rs[|rs| - 1])
  }

  // -------------------------------------------------------------- the handlers

  class Server {
    var profiles: map<string, string>
    var marker: Option<string>
    var live: Option<string>

    function State(): Files
      reads this
    {
      Files(profiles, marker, live)
    }

    constructor (s: Files)
      ensures State() == s
    {
      profiles, marker, live := s.profiles, s.marker, s.live;
    }

    method BootstrapProfiles(e: Env, now: int)
      modifies this
      ensures State() == Bootstrap(e, old(State()), now)
    {
      if profiles != map[] { return; }
      var body := DEFAULT_BODY;
      if live.Some? { body := live.value; }
      profiles := profiles["default" := Render(e.json, Meta("Default", DEFAULT_DESCRIPTION, now, now), body)];
      marker := Some("default" + "\n");
    }

    method ApplyActiveToLive() returns (ok: bool)
      modifies this`live
      ensures ok == HasActive(old(State()))
      ensures live == if ok then Some(Strip(profiles[ActiveId(State())])) else old(live)
    {
      var id := ActiveId(State());
      if id == "" || id !in profiles { return false; }
      var text := StripProfileMeta(profiles[id]);
      live := Some(text);
      ok := true;
    }

    method SaveConfig(e: Env, c: Config, now: int)
      modifies this
      ensures State() == SaveStep(e, old(State()), c, now)
    {
      var body := ConfigFile.SaveConfig(e.floats, c);
      live := Some(body);
      var id := ActiveId(State());
      if id != "" && id in profiles {
        var meta := ParseProfileMeta(e.json, profiles[id]);
        profiles := profiles[id := Render(e.json, meta.(modified := now), body)];
      }
    }

    method HandleCreate(e: Env, name: string, description: string, copyFrom: string, outside: Option<string>, now: int)
      returns (id: Option<string>)
      modifies this
      ensures State() == CreateStep(e, old(State()), name, description, copyFrom, outside, now)
      ensures var s := Bootstrap(e, old(State()), now);
              id == if Trim(name) == "" || (copyFrom != "" && copyFrom !in s.profiles && outside.None?) then None
                    else Some(UniqueId(s.profiles.Keys, name))
      ensures id.Some? ==> id.value in profiles
    {
      if Trim(name) == "" { return None; }
      BootstrapProfiles(e, now);
      var body := DEFAULT_BODY;
      if copyFrom != "" {
        if copyFrom in profiles {
          body := profiles[copyFrom];
        } else {
          if outside.None? { return None; }
          body := outside.value;
        }
      }
      var chosen := UniqueProfileId(profiles.Keys, name);
      profiles := profiles[chosen := Render(e.json, Meta(name, description, now, now), body)];
      id := Some(chosen);
    }

    method HandleUpdate(e: Env, id: string, name: string, description: string, now: int) returns (ok: bool)
      modifies this
      ensures State() == UpdateStep(e, old(State()), id, name, description, now)
      ensures ok == (id in old(profiles))
    {
      if id !in profiles { return false; }
      var meta := ParseProfileMeta(e.json, profiles[id]);
      if Trim(name) != "" { meta := meta.(name := name); }
      meta := meta.(description := description, modified := now);
      profiles := profiles[id := Render(e.json, meta, profiles[id])];
      ok := true;
    }

    method HandleDelete(id: string) returns (ok: bool)
      modifies this
      ensures State() == DeleteStep(old(State()), id)
      ensures ok == (id in old(profiles) && id != ActiveId(old(State())))
    {
      if ActiveId(State()) == id { return false; }
      ok := id in profiles;
      profiles := profiles - {id};
    }

    method HandleActivate(id: string) returns (ok: bool)
      modifies this
      ensures State() == ActivateStep(old(State()), id)
      ensures ok == (id in old(profiles) && HasActive(State()))
    {
      if id !in profiles { return false; }
      marker := Some(id + "\n");
      ok := ApplyActiveToLive();
    }

    method HandleImport(e: Env, sent: string, now: int) returns (id: string)
      modifies this
      ensures State() == ImportStep(e, old(State()), sent, now)
      ensures id == UniqueId(old(profiles).Keys, ImportMeta(e, Received(sent), now).name) && id in profiles
    {
      var body := if |sent| > IMPORT_LIMIT then sent[..IMPORT_LIMIT] else sent;
      var meta := ParseProfileMeta(e.json, body);
      if Trim(meta.name) == "" { meta := meta.(name := "Imported"); }
      if meta.created == 0 { meta := meta.(created := now); }
      meta := meta.(modified := now);
      id := UniqueProfileId(profiles.Keys, meta.name);
      profiles := profiles[id := Render(e.json, meta, body)];
    }
  }
}
