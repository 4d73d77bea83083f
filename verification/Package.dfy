/** Package files: the producer's side of a plugin, validated by the same rules. */
module Package {
  import opened Wrappers
  import opened Text
  import opened PluginSpec
  import PluginLaws

  datatype Isolation = Shared | PerAgentSession | PerRequest

  datatype SpillMode = Never | Always | Size

  datatype Spill = Spill(mode: SpillMode, threshold: Option<nat>, methods: Option<seq<string>>, tools: Option<seq<string>>)

  datatype PackageFile = PackageFile(
    name: string, port: Option<nat>, path: Option<string>, upstreamAuth: Option<string>, isolation: Isolation,
    egress: Yaml, resources: Option<Yaml>, env: Option<Yaml>, spill: Spill)

  datatype ValidPackage = ValidPackage(
    name: string, port: nat, path: string, upstreamAuth: string, env: seq<(string, string)>, resources: Option<Resources>,
    egress: Egress, isolation: Isolation, spill: Spill)

  const SENTINEL_IMAGE := "package-file://no-image-required"

  predicate HasBlank(names: seq<string>) {
    exists i :: 0 <= i < |names| && Trim(names[i]) == ""
  }

  function CheckSpill(spill: Spill): Option<Fault> {
    if spill.mode == Size && (spill.threshold.None? || spill.threshold.value == 0) then Some(SpillThreshold)
    else if spill.mode != Size && spill.threshold.Some? then Some(SpillThreshold)
    else if spill.methods.Some? && (spill.methods.value == [] || HasBlank(spill.methods.value)) then Some(SpillMethods)
    else if spill.tools.Some? && (spill.tools.value == [] || HasBlank(spill.tools.value)) then Some(SpillTools)
    else None
  }

  /** The package as a plugin entry under an image of no importance. */
  function Synthetic(raw: PackageFile, image: string): RawPlugin {
    RawPlugin(raw.name, Some(image), raw.port, if raw.path.Some? then raw.path else Some("/mcp"), raw.upstreamAuth,
              raw.env, raw.resources, Some(raw.egress), None)
  }

  function CheckPackage(serde: Serde, raw: PackageFile): Result<ValidPackage, ValidationError> {
    match CheckPlugin(serde, Synthetic(raw, SENTINEL_IMAGE))
    case Err(error) => Err(error)
    case Ok(p) =>
      match CheckSpill(raw.spill)
      case Some(fault) => Err(PackageInvalid(p.name, fault))
      case None => Ok(ValidPackage(p.name, p.port, p.path, p.upstreamAuth, p.env, p.resources, p.egress, raw.isolation, raw.spill))
  }

  /** The plugin a package becomes under an image. */
  function AsPlugin(package: ValidPackage, image: string): Plugin {
    Plugin(package.name, Trim(image), package.port, package.path, package.upstreamAuth, package.env, package.resources, package.egress)
  }

  /** The image decides nothing but the image, so long as it is not blank. */
  lemma ImageIsFree(serde: Serde, raw: PackageFile, image: string)
    requires Trim(image) != ""
    ensures var under := CheckPlugin(serde, Synthetic(raw, image));
            var sentinel := CheckPlugin(serde, Synthetic(raw, SENTINEL_IMAGE));
            if sentinel.Ok? then under == Ok(sentinel.value.(image := Trim(image))) else under == sentinel
  {
    hide CheckPath, CheckAuth, CheckEnv, CheckResources, CheckEgress, ValidName, CheckPort;
    SentinelIsNotBlank();
  }

  lemma SentinelIsNotBlank()
    ensures Trim(SENTINEL_IMAGE) == SENTINEL_IMAGE
  {
    TrimFixed(SENTINEL_IMAGE);
  }

  /**
   * A package that validates, rendered as a plugin entry under any image that is not blank, validates as a
   * plugin with the same shared fields; and its spill policy has a threshold exactly when it goes by size.
   */
  lemma PackageRendersAsPlugin(serde: Serde, raw: PackageFile, image: string)
    requires CheckPackage(serde, raw).Ok? && Trim(image) != ""
    ensures var package := CheckPackage(serde, raw).value;
            CheckPlugin(serde, Render(AsPlugin(package, image))) == Ok(AsPlugin(package, image))
    ensures var spill := CheckPackage(serde, raw).value.spill;
            (spill.mode == Size <==> spill.threshold.Some?) && spill.threshold != Some(0)
  {
    hide CheckPlugin, Render, ValidPlugin;
    var package := CheckPackage(serde, raw).value;
    var sentinel := Synthetic(raw, SENTINEL_IMAGE);
    ValidatedIsValid(serde, sentinel);
    OtherImage(serde, CheckPlugin(serde, sentinel).value, image);
    RenderedValidates(serde, AsPlugin(package, image));
  }

  lemma OtherImage(serde: Serde, p: Plugin, image: string)
    requires ValidPlugin(serde, p) && Trim(image) != ""
    ensures ValidPlugin(serde, p.(image := Trim(image)))
  {
    hide ValidName, ValidPath, ValidAuth, ValidEnv, ValidResources, ValidEgress;
    TrimIsTrimmed(image);
  }

  /** A package file is accepted exactly when its entry is, under any image, and its spill policy is sound. */
  lemma PackageAcceptedIff(serde: Serde, raw: PackageFile, image: string)
    requires Trim(image) != ""
    ensures CheckPackage(serde, raw).Ok? <==> CheckPlugin(serde, Synthetic(raw, image)).Ok? && CheckSpill(raw.spill).None?
  {
    hide CheckPlugin;
    ImageIsFree(serde, raw, image);
  }

  predicate Named(names: Option<seq<string>>) {
    names.Some? ==> names.value != [] && forall i :: 0 <= i < |names.value| ==> Trim(names.value[i]) != ""
  }

  /** A threshold, not zero, goes with spilling by size and with nothing else; a list of methods or tools has names in it. */
  predicate SpillSound(spill: Spill) {
    && (spill.mode == Size <==> spill.threshold.Some?) && spill.threshold != Some(0)
    && Named(spill.methods) && Named(spill.tools)
  }

  /** The package's own fields as an entry's, under some image; without a path it is served at `/mcp`. */
  function EntryOf(raw: PackageFile): RawPlugin {
    RawPlugin(raw.name, Some("image"), raw.port, Some(if raw.path.Some? then raw.path.value else "/mcp"), raw.upstreamAuth, raw.env,
              raw.resources, Some(raw.egress), None)
  }

  lemma SpillMeans(spill: Spill)
    ensures CheckSpill(spill) == None <==> SpillSound(spill)
    ensures CheckSpill(spill) == Some(SpillThreshold) <==>
              (spill.mode == Size && (spill.threshold == None || spill.threshold == Some(0))) || (spill.mode != Size && spill.threshold.Some?)
    ensures CheckSpill(spill) == Some(SpillMethods) <==>
              (spill.mode == Size <==> spill.threshold.Some?) && spill.threshold != Some(0) && !Named(spill.methods)
  {
  }

  /**
   * A package is accepted exactly when its fields make an acceptable entry and its spill policy is sound; its parts are
   * then those of the entry, with the isolation and the policy as written.
   */
  lemma AcceptedMeans(serde: Serde, raw: PackageFile, v: ValidPackage)
    ensures CheckPackage(serde, raw) == Ok(v)
       <==> PluginLaws.Accepts(serde, EntryOf(raw), AsPlugin(v, "image")) && SpillSound(raw.spill)
            && v.isolation == raw.isolation && v.spill == raw.spill
  {
    hide CheckPlugin, PluginLaws.Accepts, CheckSpill, SpillSound;
    SpillMeans(raw.spill);
    ImageTrims();
    assert Synthetic(raw, "image") == EntryOf(raw);
    ImageIsFree(serde, raw, "image");
    PluginLaws.AcceptedMeans(serde, EntryOf(raw), AsPlugin(v, "image"));
  }

  lemma ImageTrims()
    ensures Trim("image") == "image"
  {
    TrimFixed("image");
  }
}
