/** Revision pinning of task arguments (`models/pin_task_args.go`), on decoded JSON. The meaning is
    stated on the multiset of files and the map of components, so it has no order to depend on. */
module RevisionPinning {
  import opened Wrappers
  import opened Models
  import opened CanonicalJson

  type Fields = map<string, Value>

  /** A place in the arguments that names a model: its repository and format. */
  datatype Target = Target(repository: string, format: string)

  // ---- Names ----

  /** Names that are not URLs are compared without case; `lower` is the case folding. */
  function NormalizeModelName(lower: string -> string, name: string): string {
    if "http://" <= name || "https://" <= name then name else lower(name)
  }

  predicate SameModel(lower: string -> string, f: ModelFile, t: Target) {
    NormalizeModelName(lower, f.repository) == NormalizeModelName(lower, t.repository) && f.format == t.format
  }

  // ---- The shape of the arguments ----

  function TextOf(fields: Fields, key: string): string {
    if key in fields && fields[key].Str? then fields[key].s else ""
  }

  function ObjectOf(fields: Fields, key: string): Option<Fields> {
    if key in fields && fields[key].Obj? then Some(fields[key].fields) else None
  }

  function Components(args: Fields): Fields {
    var c := ObjectOf(args, "components");
    if c.Some? then c.value else map[]
  }

  predicate ComponentShaped(v: Value) {
    v.Obj? && TextOf(v.fields, "repo") != "" && TextOf(v.fields, "format") != ""
  }

  predicate WellShaped(args: Fields, taskType: TaskType) {
    match taskType
    case LLM => TextOf(args, "model") != ""
    case SD =>
      && ObjectOf(args, "base_model").Some? && TextOf(ObjectOf(args, "base_model").value, "name") != ""
      && forall n | n in Components(args) :: ComponentShaped(Components(args)[n])
    case SDFTLora => false
  }

  function ComponentTarget(v: Value): Target
    requires ComponentShaped(v)
  {
    Target(TextOf(v.fields, "repo"), TextOf(v.fields, "format"))
  }

  function TopTarget(args: Fields): Target {
    Target(TextOf(args, "model"), "")
  }

  function BaseTarget(args: Fields): Target
    requires WellShaped(args, SD)
  {
    Target(TextOf(ObjectOf(args, "base_model").value, "name"), "diffusers")
  }

  function Targets(args: Fields, taskType: TaskType): set<Target>
    requires WellShaped(args, taskType)
  {
    if taskType == LLM then {TopTarget(args)}
    else {BaseTarget(args)} + set n | n in Components(args) :: ComponentTarget(Components(args)[n])
  }

  // ---- The meaning ----

  /** At most one file is for the target, and it has a revision. */
  ghost predicate TargetOk(lower: string -> string, files: multiset<ModelFile>, t: Target) {
    forall x | x in files && SameModel(lower, x, t) ::
      && files[x] == 1 && x.revision != ""
      && forall y | y in files && SameModel(lower, y, t) :: y == x
  }

  ghost function RevisionFor(lower: string -> string, files: multiset<ModelFile>, t: Target): Option<string> {
    if x :| x in files && SameModel(lower, x, t) then Some(x.revision) else None
  }

  function WithRevision(fields: Fields, revision: Option<string>): Fields {
    if revision.Some? then fields["revision" := Str(revision.value)] else fields
  }

  ghost predicate PinOk(lower: string -> string, args: Fields, taskType: TaskType, files: multiset<ModelFile>) {
    && files != multiset{} && WellShaped(args, taskType)
    && (forall t | t in Targets(args, taskType) :: TargetOk(lower, files, t))
    && (forall x | x in files :: exists t | t in Targets(args, taskType) :: SameModel(lower, x, t))
  }

  ghost function PinnedOne(lower: string -> string, v: Value, files: multiset<ModelFile>): Value
    requires ComponentShaped(v)
  {
    Obj(WithRevision(v.fields, RevisionFor(lower, files, ComponentTarget(v))))
  }

  ghost function PinnedComponents(lower: string -> string, components: Fields, files: multiset<ModelFile>): Fields
    requires forall n | n in components :: ComponentShaped(components[n])
  {
    map n | n in components :: PinnedOne(lower, components[n], files)
  }

  ghost function Pinned(lower: string -> string, args: Fields, taskType: TaskType, files: multiset<ModelFile>): Fields
    requires WellShaped(args, taskType)
  {
    if taskType == LLM then WithRevision(args, RevisionFor(lower, files, TopTarget(args)))
    else
      var base := Obj(WithRevision(ObjectOf(args, "base_model").value, RevisionFor(lower, files, BaseTarget(args))));
      var based := args["base_model" := base];
      if ObjectOf(args, "components").None? then based
      else based["components" := Obj(PinnedComponents(lower, Components(args), files))]
  }

  // ---- The places of the arguments ----

  predicate IsText(fields: Fields, key: string, text: string) {
    key in fields && fields[key] == Str(text) && text != ""
  }

  predicate IsUrl(name: string) {
    (|name| >= 7 && name[..7] == "http://") || (|name| >= 8 && name[..8] == "https://")
  }

  /** A URL names only itself; other names are the same when they differ in letter case only. */
  predicate SameName(lower: string -> string, a: string, b: string) {
    if IsUrl(a) && IsUrl(b) then a == b
    else if IsUrl(a) then a == lower(b)
    else if IsUrl(b) then lower(a) == b else lower(a) == lower(b)
  }

  lemma SameModelMeans(lower: string -> string, f: ModelFile, t: Target)
    ensures SameModel(lower, f, t) <==> f.format == t.format && SameName(lower, f.repository, t.repository)
  {
    UrlMeans(f.repository);
    UrlMeans(t.repository);
    hide IsUrl;
  }

  lemma UrlMeans(name: string)
    ensures IsUrl(name) <==> "http://" <= name || "https://" <= name
  {
    if "http://" <= name { assert name[..7] == "http://"; }
    if "https://" <= name { assert name[..8] == "https://"; }
  }

  /** The one file of a language task: of no format, with a revision, for the model it names. */
  predicate IsFileOf(lower: string -> string, args: Fields, files: multiset<ModelFile>, name: string, x: ModelFile) {
    IsText(args, "model", name) && files == multiset{x} && x.format == "" && x.revision != "" && SameName(lower, x.repository, name)
  }

  /** A language task is pinned exactly when there is one file and it is for its model; then the arguments
      gain that file's revision, at the top. */
  lemma LanguageTaskIsPinned(lower: string -> string, args: Fields, files: multiset<ModelFile>)
    ensures PinOk(lower, args, LLM, files) <==> exists name, x :: IsFileOf(lower, args, files, name, x)
    ensures forall name, x | IsFileOf(lower, args, files, name, x) :: Pinned(lower, args, LLM, files) == args["revision" := Str(x.revision)]
  {
    forall x: ModelFile, t: Target
      ensures SameModel(lower, x, t) <==> x.format == t.format && SameName(lower, x.repository, t.repository)
    {
      SameModelMeans(lower, x, t);
    }
    hide SameModel, SameName;
    if PinOk(lower, args, LLM, files) {
      var t := TopTarget(args);
      assert t in Targets(args, LLM);
      var x :| x in files;
      forall y | y in files
        ensures SameModel(lower, y, t)
      {
      }
      assert files == multiset{x};
      assert IsFileOf(lower, args, files, args["model"].s, x);
    }
    forall name, x | IsFileOf(lower, args, files, name, x)
      ensures PinOk(lower, args, LLM, files) && Pinned(lower, args, LLM, files) == args["revision" := Str(x.revision)]
    {
      assert TopTarget(args) == Target(name, "") && SameModel(lower, x, TopTarget(args));
      assert Targets(args, LLM) == {TopTarget(args)};
    }
  }

  lemma TextMeans(fields: Fields, key: string, text: string)
    ensures IsText(fields, key, text) <==> TextOf(fields, key) == text != ""
  {
  }

  /** A component names a repository and a format. */
  predicate NamesPlace(v: Value, t: Target) {
    v.Obj? && IsText(v.fields, "repo", t.repository) && IsText(v.fields, "format", t.format)
  }

  lemma ComponentMeans(v: Value, t: Target)
    ensures NamesPlace(v, t) <==> ComponentShaped(v) && ComponentTarget(v) == t
  {
    if v.Obj? {
      TextMeans(v.fields, "repo", t.repository);
      TextMeans(v.fields, "format", t.format);
    }
  }

  function ComponentsOf(args: Fields): Fields {
    if "components" in args && args["components"].Obj? then args["components"].fields else map[]
  }

  /** The places of an image task: its base model by name, as diffusers, and every component by its own
      repository and format; the components may be missing. A fine-tuning task has none. */
  lemma ImageTaskPlaces(args: Fields)
    ensures WellShaped(args, SD) <==>
            && "base_model" in args && args["base_model"].Obj? && (exists name :: IsText(args["base_model"].fields, "name", name))
            && forall n | n in ComponentsOf(args) :: exists t :: NamesPlace(ComponentsOf(args)[n], t)
    ensures !WellShaped(args, SDFTLora)
    ensures WellShaped(args, SD) ==>
              forall t :: t in Targets(args, SD) <==>
                || (t.format == "diffusers" && IsText(args["base_model"].fields, "name", t.repository))
                || exists n | n in ComponentsOf(args) :: NamesPlace(ComponentsOf(args)[n], t)
  {
    assert Components(args) == ComponentsOf(args);
    forall n, t: Target | n in ComponentsOf(args)
      ensures NamesPlace(ComponentsOf(args)[n], t) <==> ComponentShaped(ComponentsOf(args)[n]) && ComponentTarget(ComponentsOf(args)[n]) == t
    {
      ComponentMeans(ComponentsOf(args)[n], t);
    }
    var base := ObjectOf(args, "base_model");
    if base.Some? {
      forall name
        ensures IsText(base.value, "name", name) <==> TextOf(base.value, "name") == name != ""
      {
        TextMeans(base.value, "name", name);
      }
    }
    hide NamesPlace, ComponentShaped, ComponentTarget, Components, ComponentsOf, IsText, TextOf;
    assert forall n | n in ComponentsOf(args) && ComponentShaped(ComponentsOf(args)[n]) ::
        NamesPlace(ComponentsOf(args)[n], ComponentTarget(ComponentsOf(args)[n]));
    if base.Some? && TextOf(base.value, "name") != "" { assert IsText(args["base_model"].fields, "name", TextOf(base.value, "name")); }
  }

  // ---- What pinning keeps ----

  function Erased(fields: Fields): Fields {
    fields - {"revision"}
  }

  function ErasedOne(v: Value): Value
    requires ComponentShaped(v)
  {
    Obj(Erased(v.fields))
  }

  function ErasedComponents(components: Fields): Fields
    requires forall n | n in components :: ComponentShaped(components[n])
  {
    map n | n in components :: ErasedOne(components[n])
  }

  /** The arguments without the revision of any target. */
  function EraseRevisions(args: Fields, taskType: TaskType): Fields
    requires WellShaped(args, taskType)
  {
    if taskType == LLM then Erased(args)
    else
      var based := args["base_model" := Obj(Erased(ObjectOf(args, "base_model").value))];
      if ObjectOf(args, "components").None? then based
      else based["components" := Obj(ErasedComponents(Components(args)))]
  }

  lemma WithRevisionKeeps(fields: Fields, revision: Option<string>, key: string)
    requires key != "revision"
    ensures var w := WithRevision(fields, revision);
            && TextOf(w, key) == TextOf(fields, key) && ObjectOf(w, key) == ObjectOf(fields, key)
            && Erased(w) == Erased(fields) && WithRevision(w, revision) == w
  {
  }

  lemma PinnedComponent(lower: string -> string, components: Fields, files: multiset<ModelFile>, n: string)
    requires (forall k | k in components :: ComponentShaped(components[k])) && n in components
    ensures var c := PinnedComponents(lower, components, files);
            && n in c && ComponentShaped(c[n]) && ComponentTarget(c[n]) == ComponentTarget(components[n])
            && Erased(c[n].fields) == Erased(components[n].fields)
            && WithRevision(c[n].fields, RevisionFor(lower, files, ComponentTarget(components[n]))) == c[n].fields
  {
    var r := RevisionFor(lower, files, ComponentTarget(components[n]));
    WithRevisionKeeps(components[n].fields, r, "repo");
    WithRevisionKeeps(components[n].fields, r, "format");
    hide RevisionFor;
  }

  /** The pinned arguments of an image task, field by field. */
  lemma PinnedParts(lower: string -> string, args: Fields, files: multiset<ModelFile>)
    requires WellShaped(args, SD)
    ensures var p := Pinned(lower, args, SD, files);
            && ObjectOf(p, "base_model") ==
               Some(WithRevision(ObjectOf(args, "base_model").value, RevisionFor(lower, files, BaseTarget(args))))
            && (ObjectOf(p, "components").Some? <==> ObjectOf(args, "components").Some?)
            && Components(p) == PinnedComponents(lower, Components(args), files)
            && p.Keys == args.Keys
            && (forall k | k in p && k != "base_model" && k != "components" :: p[k] == args[k])
            && (ObjectOf(args, "components").None? && "components" in args ==> p["components"] == args["components"])
  {
    hide RevisionFor;
    if ObjectOf(args, "components").None? {
      assert PinnedComponents(lower, map[], files) == map[];
    }
  }

  lemma PinnedShape(lower: string -> string, args: Fields, files: multiset<ModelFile>)
    requires WellShaped(args, SD)
    ensures var p := Pinned(lower, args, SD, files);
            WellShaped(p, SD) && BaseTarget(p) == BaseTarget(args) && Targets(p, SD) == Targets(args, SD)
  {
    var p := Pinned(lower, args, SD, files);
    PinnedParts(lower, args, files);
    WithRevisionKeeps(ObjectOf(args, "base_model").value, RevisionFor(lower, files, BaseTarget(args)), "name");
    forall n | n in Components(args)
      ensures n in Components(p) && ComponentShaped(Components(p)[n])
      ensures ComponentTarget(Components(p)[n]) == ComponentTarget(Components(args)[n])
    {
      PinnedComponent(lower, Components(args), files, n);
    }
    assert Components(p).Keys == Components(args).Keys;
    hide Pinned, PinnedComponents, RevisionFor, ComponentShaped, ComponentTarget, ObjectOf, TextOf, Components;
  }

  /** Pinning changes no target, and nothing but revisions. */
  lemma PinningKeepsTargets(lower: string -> string, args: Fields, taskType: TaskType, files: multiset<ModelFile>)
    requires WellShaped(args, taskType)
    ensures var p := Pinned(lower, args, taskType, files);
            && WellShaped(p, taskType) && Targets(p, taskType) == Targets(args, taskType)
            && EraseRevisions(p, taskType) == EraseRevisions(args, taskType)
  {
    var p := Pinned(lower, args, taskType, files);
    if taskType == LLM {
      WithRevisionKeeps(args, RevisionFor(lower, files, TopTarget(args)), "model");
    } else {
      PinnedShape(lower, args, files);
      ErasedParts(lower, args, files);
    }
  }

  lemma ErasedParts(lower: string -> string, args: Fields, files: multiset<ModelFile>)
    requires WellShaped(args, SD) && WellShaped(Pinned(lower, args, SD, files), SD)
    ensures EraseRevisions(Pinned(lower, args, SD, files), SD) == EraseRevisions(args, SD)
  {
    var p := Pinned(lower, args, SD, files);
    PinnedParts(lower, args, files);
    WithRevisionKeeps(ObjectOf(args, "base_model").value, RevisionFor(lower, files, BaseTarget(args)), "name");
    SameErasedComponents(lower, Components(args), files);
    hide Pinned, PinnedComponents, RevisionFor, Erased, ErasedComponents, ComponentShaped, EraseRevisions;
    SameErasure(args, p);
  }

  lemma SameErasedComponents(lower: string -> string, components: Fields, files: multiset<ModelFile>)
    requires forall n | n in components :: ComponentShaped(components[n])
    ensures var c := PinnedComponents(lower, components, files);
            && (forall n | n in c :: ComponentShaped(c[n]))
            && ErasedComponents(c) == ErasedComponents(components)
  {
    forall n | n in components
      ensures var c := PinnedComponents(lower, components, files);
              ComponentShaped(c[n]) && Erased(c[n].fields) == Erased(components[n].fields)
    {
      PinnedComponent(lower, components, files, n);
    }
    hide Erased, PinnedOne, ComponentShaped;
  }

  lemma SameErasure(a: Fields, b: Fields)
    requires WellShaped(a, SD) && WellShaped(b, SD) && a.Keys == b.Keys
    requires forall k | k in a && k != "base_model" && k != "components" :: a[k] == b[k]
    requires Erased(ObjectOf(a, "base_model").value) == Erased(ObjectOf(b, "base_model").value)
    requires ErasedComponents(Components(a)) == ErasedComponents(Components(b))
    requires ObjectOf(a, "components").Some? <==> ObjectOf(b, "components").Some?
    requires ObjectOf(a, "components").None? && "components" in a ==> a["components"] == b["components"]
    ensures EraseRevisions(a, SD) == EraseRevisions(b, SD)
  {
    hide Erased, ErasedComponents, ComponentShaped, Components;
  }

  /** Pinning pinned arguments again with the same files succeeds and changes nothing. */
  lemma PinningTwiceIsPinningOnce(lower: string -> string, args: Fields, taskType: TaskType, files: multiset<ModelFile>)
    requires PinOk(lower, args, taskType, files)
    ensures var p := Pinned(lower, args, taskType, files);
            PinOk(lower, p, taskType, files) && Pinned(lower, p, taskType, files) == p
  {
    var p := Pinned(lower, args, taskType, files);
    PinningKeepsTargets(lower, args, taskType, files);
    if taskType == LLM {
      WithRevisionKeeps(args, RevisionFor(lower, files, TopTarget(args)), "model");
      hide RevisionFor, TargetOk;
    } else {
      PinnedShape(lower, args, files);
      hide TargetOk;
      RepinnedParts(lower, args, files);
    }
  }

  lemma RepinnedParts(lower: string -> string, args: Fields, files: multiset<ModelFile>)
    requires WellShaped(args, SD) && WellShaped(Pinned(lower, args, SD, files), SD)
    requires BaseTarget(Pinned(lower, args, SD, files)) == BaseTarget(args)
    ensures var p := Pinned(lower, args, SD, files); Pinned(lower, p, SD, files) == p
  {
    var p := Pinned(lower, args, SD, files);
    var q := Pinned(lower, p, SD, files);
    PinnedParts(lower, args, files);
    PinnedParts(lower, p, files);
    WithRevisionKeeps(ObjectOf(args, "base_model").value, RevisionFor(lower, files, BaseTarget(args)), "name");
    RepinnedComponents(lower, Components(args), files);
    assert ObjectOf(q, "base_model") == ObjectOf(p, "base_model");
    hide Pinned, PinnedComponents, RevisionFor, ComponentShaped, WithRevision;
    assert Components(q) == Components(p);
    SameFields(q, p);
  }

  lemma RepinnedComponents(lower: string -> string, components: Fields, files: multiset<ModelFile>)
    requires forall n | n in components :: ComponentShaped(components[n])
    ensures var c := PinnedComponents(lower, components, files);
            (forall n | n in c :: ComponentShaped(c[n])) && PinnedComponents(lower, c, files) == c
  {
    var c := PinnedComponents(lower, components, files);
    forall n | n in components
      ensures ComponentShaped(c[n]) && PinnedOne(lower, c[n], files) == c[n]
    {
      PinnedComponent(lower, components, files, n);
    }
    hide PinnedOne, ComponentShaped;
  }

  lemma SameFields(a: Fields, b: Fields)
    requires a.Keys == b.Keys && forall k | k in a && k != "base_model" && k != "components" :: a[k] == b[k]
    requires ObjectOf(a, "base_model") == ObjectOf(b, "base_model") && ObjectOf(a, "base_model").Some?
    requires (ObjectOf(a, "components").Some? <==> ObjectOf(b, "components").Some?) && Components(a) == Components(b)
    requires ObjectOf(a, "components").None? && "components" in a ==> a["components"] == b["components"]
    ensures a == b
  {
  }

  /** The object that names a target carries the revision of the file for it, and is unchanged if no
      file is for it. */
  ghost predicate CarriesRevision(lower: string -> string, before: Fields, after: Fields, files: multiset<ModelFile>, t: Target) {
    && (forall x | x in files && SameModel(lower, x, t) :: after == before["revision" := Str(x.revision)])
    && ((forall x | x in files :: !SameModel(lower, x, t)) ==> after == before)
  }

  lemma RevisionIsCarried(lower: string -> string, fields: Fields, files: multiset<ModelFile>, t: Target)
    requires TargetOk(lower, files, t)
    ensures CarriesRevision(lower, fields, WithRevision(fields, RevisionFor(lower, files, t)), files, t)
  {
    hide TargetOk, RevisionFor, SameModel;
    forall x | x in files && SameModel(lower, x, t)
      ensures RevisionFor(lower, files, t) == Some(x.revision)
    {
      RevisionOfMatch(lower, files, t, x);
    }
    if forall x | x in files :: !SameModel(lower, x, t) { NoRevisionFor(lower, files, t); }
  }

  /** After a successful pinning every target carries the revision of the file for it: the model of a
      language task, and the base model and each component of an image task. A target no file is for is
      unchanged. */
  lemma TargetsCarryRevisions(lower: string -> string, args: Fields, taskType: TaskType, files: multiset<ModelFile>)
    requires PinOk(lower, args, taskType, files)
    ensures var p := Pinned(lower, args, taskType, files);
            if taskType == LLM then CarriesRevision(lower, args, p, files, TopTarget(args))
            else
              && ObjectOf(p, "base_model").Some?
              && CarriesRevision(lower, ObjectOf(args, "base_model").value, ObjectOf(p, "base_model").value, files, BaseTarget(args))
              && Components(p).Keys == Components(args).Keys
              && forall n | n in Components(args) ::
                   && Components(p)[n].Obj?
                   && CarriesRevision(lower, Components(args)[n].fields, Components(p)[n].fields, files, ComponentTarget(Components(args)[n]))
  {
    if taskType == LLM {
      RevisionIsCarried(lower, args, files, TopTarget(args));
    } else {
      PinnedParts(lower, args, files);
      RevisionIsCarried(lower, ObjectOf(args, "base_model").value, files, BaseTarget(args));
      forall n | n in Components(args)
        ensures TargetOk(lower, files, ComponentTarget(Components(args)[n]))
      {
        assert ComponentTarget(Components(args)[n]) in Targets(args, SD);
      }
      hide TargetOk, RevisionFor, CarriesRevision, Pinned, Components, PinOk, ObjectOf, WithRevision;
      forall n | n in Components(args)
        ensures var c := PinnedComponents(lower, Components(args), files);
                CarriesRevision(lower, Components(args)[n].fields, c[n].fields, files, ComponentTarget(Components(args)[n]))
      {
        RevisionIsCarried(lower, Components(args)[n].fields, files, ComponentTarget(Components(args)[n]));
      }
    }
  }

  lemma RevisionOfMatch(lower: string -> string, files: multiset<ModelFile>, t: Target, x: ModelFile)
    requires TargetOk(lower, files, t) && x in files && SameModel(lower, x, t)
    ensures RevisionFor(lower, files, t) == Some(x.revision)
  {
    hide SameModel;
  }

  lemma NoRevisionFor(lower: string -> string, files: multiset<ModelFile>, t: Target)
    requires forall x | x in files :: !SameModel(lower, x, t)
    ensures RevisionFor(lower, files, t) == None
  {
  }

  // ---- The loops ----

  /** The place of the only match among the files of a list, in the terms of its multiset. */
  lemma OneMatch(lower: string -> string, files: seq<ModelFile>, t: Target, i: nat)
    requires i < |files| && SameModel(lower, files[i], t) && files[i].revision != ""
    requires forall j | 0 <= j < |files| && j != i :: !SameModel(lower, files[j], t)
    ensures TargetOk(lower, multiset(files), t) && RevisionFor(lower, multiset(files), t) == Some(files[i].revision)
  {
    var m := multiset(files);
    assert files[i] in m;
    assert files == files[..i] + [files[i]] + files[i + 1..];
    forall x | x in m && SameModel(lower, x, t)
      ensures x == files[i]
    {
      assert x in files;
      var j :| 0 <= j < |files| && files[j] == x;
    }
    assert files[i] !in files[..i] && files[i] !in files[i + 1..];
    assert m[files[i]] == 1;
  }

  lemma NoMatch(lower: string -> string, files: seq<ModelFile>, t: Target)
    requires forall j | 0 <= j < |files| :: !SameModel(lower, files[j], t)
    ensures TargetOk(lower, multiset(files), t) && RevisionFor(lower, multiset(files), t) == None
  {
    forall x | x in multiset(files)
      ensures !SameModel(lower, x, t)
    {
      assert x in files;
    }
  }

  lemma TwoMatches(lower: string -> string, files: seq<ModelFile>, t: Target, i: nat, j: nat)
    requires i < j < |files| && SameModel(lower, files[i], t) && SameModel(lower, files[j], t)
    ensures !TargetOk(lower, multiset(files), t)
  {
    assert files[i] in multiset(files) && files[j] in multiset(files);
    if files[i] == files[j] {
      assert files == files[..i] + [files[i]] + files[i + 1..j] + [files[j]] + files[j + 1..];
      assert multiset(files)[files[i]] >= 2;
    }
  }

  /** One target against all files: it fails on a second match or on one without a revision. */
  method MatchTarget(lower: string -> string, files: seq<ModelFile>, t: Target, matched: set<nat>)
    returns (ok: bool, revision: Option<string>, hits: set<nat>)
    ensures ok <==> TargetOk(lower, multiset(files), t)
    ensures ok ==> revision == RevisionFor(lower, multiset(files), t)
    ensures ok ==> hits == matched + set i | 0 <= i < |files| && SameModel(lower, files[i], t)
  {
    hide TargetOk, RevisionFor, SameModel;
    revision, hits := None, matched;
    ghost var at: nat := 0;
    for i := 0 to |files|
      invariant revision.None? ==> forall j | 0 <= j < i :: !SameModel(lower, files[j], t)
      invariant revision.Some? ==>
                  && at < i && SameModel(lower, files[at], t) && files[at].revision == revision.value != ""
                  && forall j | 0 <= j < i && j != at :: !SameModel(lower, files[j], t)
      invariant hits == matched + set j | 0 <= j < i && SameModel(lower, files[j], t)
    {
      if !SameModel(lower, files[i], t) { continue; }
      if revision.Some? {
        TwoMatches(lower, files, t, at, i);
        return false, None, hits;
      }
      if files[i].revision == "" {
        NoRevision(lower, files, t, i);
        return false, None, hits;
      }
      revision, at := Some(files[i].revision), i;
      hits := hits + {i};
    }
    if revision.Some? { OneMatch(lower, files, t, at); } else { NoMatch(lower, files, t); }
    ok := true;
  }

  lemma NoRevision(lower: string -> string, files: seq<ModelFile>, t: Target, i: nat)
    requires i < |files| && SameModel(lower, files[i], t) && files[i].revision == ""
    ensures !TargetOk(lower, multiset(files), t)
  {
    assert files[i] in multiset(files);
  }

  /** The indices of the files some target takes. */
  function Taken(lower: string -> string, files: seq<ModelFile>, targets: set<Target>): set<nat> {
    set i | 0 <= i < |files| && exists t | t in targets :: SameModel(lower, files[i], t)
  }

  function Indices(n: nat): (r: set<nat>)
    ensures |r| == n && forall i :: i in r <==> 0 <= i < n
  {
    if n == 0 then {} else Indices(n - 1) + {n - 1}
  }

  /** Counting matched indices decides whether every file has a target. */
  lemma AllTakenIff(lower: string -> string, files: seq<ModelFile>, targets: set<Target>)
    ensures |Taken(lower, files, targets)| == |files| <==>
            forall x | x in multiset(files) :: exists t | t in targets :: SameModel(lower, x, t)
  {
    hide SameModel;
    var all := Indices(|files|);
    var taken := Taken(lower, files, targets);
    assert all == taken + (all - taken);
    if |taken| == |files| {
      assert |all - taken| == 0;
      forall x | x in multiset(files)
        ensures exists t | t in targets :: SameModel(lower, x, t)
      {
        assert x in files;
        var i: nat :| i < |files| && files[i] == x;
        assert i in taken;
      }
    }
    if forall x | x in multiset(files) :: exists t | t in targets :: SameModel(lower, x, t) {
      forall i | i in all
        ensures i in taken
      {
        assert files[i] in multiset(files);
      }
      assert taken == all;
    }
  }

  lemma TakenNext(lower: string -> string, files: seq<ModelFile>, targets: set<Target>, t: Target)
    ensures Taken(lower, files, targets + {t}) ==
            Taken(lower, files, targets) + set i | 0 <= i < |files| && SameModel(lower, files[i], t)
  {
    hide SameModel;
  }

  lemma ShapedIsObject(v: Value)
    requires ComponentShaped(v)
    ensures v.Obj?
  {
  }

  function ComponentTargets(components: Fields, names: set<string>): set<Target>
    requires names <= components.Keys && forall n | n in names :: ComponentShaped(components[n])
  {
    set n | n in names :: ComponentTarget(components[n])
  }

  /** The components visited so far: well shaped, their targets fine, their revisions written. */
  ghost predicate Visited(lower: string -> string, components: Fields, files: multiset<ModelFile>, done: set<string>, pinned: Fields) {
    && done <= components.Keys && pinned.Keys == components.Keys
    && (forall n | n in done :: ComponentShaped(components[n]) && TargetOk(lower, files, ComponentTarget(components[n])))
    && (forall n | n in done :: pinned[n] == PinnedOne(lower, components[n], files))
    && (forall n | n in components && n !in done :: pinned[n] == components[n])
  }

  lemma VisitNext(lower: string -> string, components: Fields, files: multiset<ModelFile>, done: set<string>, pinned: Fields, n: string)
    requires Visited(lower, components, files, done, pinned) && n in components && ComponentShaped(components[n])
    requires TargetOk(lower, files, ComponentTarget(components[n]))
    ensures var r := RevisionFor(lower, files, ComponentTarget(components[n]));
            Visited(lower, components, files, done + {n}, pinned[n := Obj(WithRevision(components[n].fields, r))])
    ensures ComponentTargets(components, done + {n}) == ComponentTargets(components, done) + {ComponentTarget(components[n])}
  {
    hide TargetOk, RevisionFor, ComponentShaped, ComponentTarget;
  }

  method PinComponents(lower: string -> string, components: Fields, files: seq<ModelFile>, taken: set<nat>, ghost before: set<Target>)
    returns (ok: bool, pinned: Fields, matched: set<nat>)
    requires taken == Taken(lower, files, before)
    ensures ok <==> forall n | n in components ::
                      ComponentShaped(components[n]) && TargetOk(lower, multiset(files), ComponentTarget(components[n]))
    ensures ok ==> pinned == PinnedComponents(lower, components, multiset(files))
    ensures ok ==> matched == Taken(lower, files, before + ComponentTargets(components, components.Keys))
  {
    hide TargetOk, RevisionFor, SameModel, Taken, ComponentTarget, ComponentShaped, PinnedOne;
    pinned, matched := components, taken;
    var pending := components.Keys;
    assert ComponentTargets(components, components.Keys - pending) == {};
    assert before + {} == before;
    while pending != {}
      invariant pending <= components.Keys
      invariant Visited(lower, components, multiset(files), components.Keys - pending, pinned)
      invariant matched == Taken(lower, files, before + ComponentTargets(components, components.Keys - pending))
    {
      var n :| n in pending;
      if !ComponentShaped(components[n]) { return false, pinned, matched; }
      ShapedIsObject(components[n]);
      var t := ComponentTarget(components[n]);
      var done, revision, hits := MatchTarget(lower, files, t, matched);
      if !done { return false, pinned, matched; }
      VisitNext(lower, components, multiset(files), components.Keys - pending, pinned, n);
      TakenNext(lower, files, before + ComponentTargets(components, components.Keys - pending), t);
      assert components.Keys - (pending - {n}) == (components.Keys - pending) + {n};
      assert before + ComponentTargets(components, components.Keys - (pending - {n})) ==
             before + ComponentTargets(components, components.Keys - pending) + {t};
      matched := hits;
      pinned := pinned[n := Obj(WithRevision(components[n].fields, revision))];
      pending := pending - {n};
    }
    assert components.Keys - pending == components.Keys;
    ok := true;
  }

  /** It succeeds exactly when every file has a target, every target at most one file, and that file a
      revision; the result depends on no order of files or components. */
  method PinTaskArgsRevisions(lower: string -> string, args: Fields, taskType: TaskType, files: seq<ModelFile>)
    returns (r: Option<Fields>)
    ensures r.Some? <==> PinOk(lower, args, taskType, multiset(files))
    ensures r.Some? ==> r.value == Pinned(lower, args, taskType, multiset(files))
  {
    hide TargetOk, RevisionFor, SameModel, Taken;
    if |files| == 0 { return None; }
    assert files[0] in multiset(files);
    var pinned := args;
    var matched: set<nat> := {};
    assert matched == Taken(lower, files, {}) by { NothingTaken(lower, files); }
    match taskType {
      case LLM =>
        if TextOf(args, "model") == "" { return None; }
        var done, revision, hits := MatchTarget(lower, files, TopTarget(args), matched);
        TakenNext(lower, files, {}, TopTarget(args));
        assert {} + {TopTarget(args)} == Targets(args, LLM);
        if !done { return None; }
        pinned, matched := WithRevision(args, revision), hits;
      case SD =>
        var base := ObjectOf(args, "base_model");
        if base.None? || TextOf(base.value, "name") == "" { return None; }
        var t := Target(TextOf(base.value, "name"), "diffusers");
        var done, revision, hits := MatchTarget(lower, files, t, matched);
        TakenNext(lower, files, {}, t);
        assert {} + {t} == {t};
        if !done {
          assert WellShaped(args, SD) ==> t in Targets(args, SD);
          return None;
        }
        pinned := args["base_model" := Obj(WithRevision(base.value, revision))];
        var components, pinnedComponents;
        components := Components(args);
        done, pinnedComponents, matched := PinComponents(lower, components, files, hits, {t});
        if !done {
          assert WellShaped(args, SD) ==> forall n | n in components :: ComponentTarget(components[n]) in Targets(args, SD);
          return None;
        }
        assert {t} + ComponentTargets(components, components.Keys) == Targets(args, SD);
        if ObjectOf(args, "components").Some? { pinned := pinned["components" := Obj(pinnedComponents)]; }
      case SDFTLora =>
        return None;
    }
    AllTakenIff(lower, files, Targets(args, taskType));
    if |matched| != |files| { return None; }
    r := Some(pinned);
  }

  lemma NothingTaken(lower: string -> string, files: seq<ModelFile>)
    ensures Taken(lower, files, {}) == {}
  {
  }
}
