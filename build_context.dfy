/**
 * The build context of a Polyaxon operation: where the container image for a
 * run comes from (a base image or a Dockerfile), the build steps, environment
 * and security settings, and an optional commit. Construction validates the
 * image source first and then stores the fields unchanged; `ImageTag` derives
 * the tag of the base image from its reference string.
 */
module BuildContext {
  import opened Wrappers
  import opened Strings

  /** The message of the presence rule's error. */
  const MissingImageSourceMessage: string :=
    "Invalid Build context, an image or path to dockerfile is required."

  /** The tag an image reference without an explicit tag stands for. */
  const Latest: string := "latest"

  /** A validation failure and its message. */
  datatype ValidationError = ValidationError(message: string)

  /** The outcome of a validation: it passes, or it raises an error. */
  datatype Outcome = Pass | Fail(error: ValidationError)

  /**
   * An untyped configuration value, as a deserialised document holds it
   * (the elements of `env_vars` pairs and the values of `security_context`).
   */
  datatype Value =
    | Null
    | Bool(b: bool)
    | Int(i: int)
    | Real(r: real)
    | Str(s: string)
    | List(items: seq<Value>)
    | Dict(entries: map<string, Value>)

  /**
   * The image-syntax check that the build context delegates to. It lives
   * outside this model, so every operation that uses it takes it as a parameter.
   */
  type ImageValidator = Option<string> -> Outcome

  /** Python truthiness of an optional string: present and not empty. */
  predicate Truthy(s: Option<string>) {
    s.Some? && s.value != ""
  }

  /**
   * The presence rule followed by the image check: at least one of the image
   * and the Dockerfile must be given; then the image itself, absent or not,
   * goes to the external validator, whose verdict is the outcome.
   */
  function ValidateBuildContextImage(image: Option<string>, dockerfile: Option<string>,
                                     validateImage: ImageValidator): (o: Outcome)
    ensures !Truthy(image) && !Truthy(dockerfile) ==>
              o == Fail(ValidationError(MissingImageSourceMessage))
    ensures Truthy(image) || Truthy(dockerfile) ==> o == validateImage(image)
  {
    if !Truthy(image) && !Truthy(dockerfile) then
      Fail(ValidationError(MissingImageSourceMessage))
    else
      validateImage(image)
  }

  /** The validator that accepts every image. */
  function AcceptAnyImage(image: Option<string>): Outcome {
    Pass
  }

  /**
   * The presence error is raised whatever the image check would say exactly
   * when neither an image nor a Dockerfile is given: the presence rule is
   * decided before the image check is consulted.
   */
  lemma MissingImageSourceExactly(image: Option<string>, dockerfile: Option<string>)
    ensures (forall v: ImageValidator ::
               ValidateBuildContextImage(image, dockerfile, v) ==
               Fail(ValidationError(MissingImageSourceMessage)))
            <==> !Truthy(image) && !Truthy(dockerfile)
  {
    if Truthy(image) || Truthy(dockerfile) {
      assert ValidateBuildContextImage(image, dockerfile, AcceptAnyImage) == Pass;
    }
  }

  /** A validated build context. The fields are set once, by construction. */
  class BuildContextConfig {
    const context: Option<string>
    const dockerfile: Option<string>
    const image: Option<string>
    const buildSteps: Option<seq<string>>
    const langEnv: Option<string>
    const envVars: Option<seq<seq<Value>>>
    const securityContext: Option<map<string, Value>>
    const commit: Option<string>

    /**
     * Stores the fields exactly as given, once validation has passed; a
     * construction whose validation raises is `Create`'s failure case. Every
     * field defaults to absent; the image check comes first as it has none.
     */
    constructor (validateImage: ImageValidator,
                 context: Option<string> := None, dockerfile: Option<string> := None,
                 image: Option<string> := None, buildSteps: Option<seq<string>> := None,
                 langEnv: Option<string> := None, envVars: Option<seq<seq<Value>>> := None,
                 securityContext: Option<map<string, Value>> := None,
                 commit: Option<string> := None)
      requires ValidateBuildContextImage(image, dockerfile, validateImage).Pass?
      ensures Truthy(this.image) || Truthy(this.dockerfile)
      ensures this.context == context && this.dockerfile == dockerfile
      ensures this.image == image && this.buildSteps == buildSteps
      ensures this.langEnv == langEnv && this.envVars == envVars
      ensures this.securityContext == securityContext && this.commit == commit
    {
      this.context := context;
      this.dockerfile := dockerfile;
      this.image := image;
      this.buildSteps := buildSteps;
      this.langEnv := langEnv;
      this.envVars := envVars;
      this.securityContext := securityContext;
      this.commit := commit;
    }

    /**
     * Construction as the caller sees it: validation runs before anything is
     * stored, a failure yields the validation error and no object, and a
     * success yields a new object holding the arguments unchanged. Only the
     * image and the Dockerfile decide which of the two happens.
     */
    static method Create(validateImage: ImageValidator,
                         context: Option<string> := None, dockerfile: Option<string> := None,
                         image: Option<string> := None, buildSteps: Option<seq<string>> := None,
                         langEnv: Option<string> := None, envVars: Option<seq<seq<Value>>> := None,
                         securityContext: Option<map<string, Value>> := None,
                         commit: Option<string> := None)
      returns (r: Result<BuildContextConfig, ValidationError>)
      ensures r.Failure? <==> ValidateBuildContextImage(image, dockerfile, validateImage).Fail?
      ensures r.Failure? ==> r.error == ValidateBuildContextImage(image, dockerfile, validateImage).error
      ensures r.Success? ==> fresh(r.value)
      ensures r.Success? ==> Truthy(r.value.image) || Truthy(r.value.dockerfile)
      ensures r.Success? ==> r.value.context == context && r.value.dockerfile == dockerfile
      ensures r.Success? ==> r.value.image == image && r.value.buildSteps == buildSteps
      ensures r.Success? ==> r.value.langEnv == langEnv && r.value.envVars == envVars
      ensures r.Success? ==> r.value.securityContext == securityContext && r.value.commit == commit
    {
      var outcome := ValidateBuildContextImage(image, dockerfile, validateImage);
      if outcome.Fail? {
        return Failure(outcome.error);
      }
      var config := new BuildContextConfig(validateImage, context, dockerfile, image, buildSteps,
                                           langEnv, envVars, securityContext, commit);
      return Success(config);
    }

    /**
     * The tag of the base image: none without an image; otherwise decided by
     * the number of `:`-separated segments of the reference. One segment has
     * the default tag; two have the second one as tag unless it holds a `/`
     * (then the colon belonged to a registry port); three have the last one;
     * more have none.
     */
    function ImageTag(): (tag: Option<string>)
      ensures tag.None? <==> !Truthy(image) || Count(image.value, ':') >= 3
      ensures tag.Some? && tag.value != Latest ==>
                image.Some? && ':' !in tag.value && IsSuffix(tag.value, image.value)
    {
      if !Truthy(image) then None
      else
        var segments := Split(image.value, ':');
        LastSegmentIsSuffix(image.value, ':');
        if |segments| == 1 then Some(Latest)
        else if |segments| == 2 then
          if '/' in segments[|segments| - 1] then Some(Latest) else Some(segments[|segments| - 1])
        else if |segments| == 3 then Some(segments[|segments| - 1])
        else None
    }
  }

  /** An image reference without a colon carries the default tag. */
  lemma UntaggedImageIsLatest(config: BuildContextConfig, name: string)
    requires config.image == Some(name)
    requires name != "" && ':' !in name
    ensures config.ImageTag() == Some(Latest)
  {
  }

  /**
   * With one colon, the text after it is the tag, unless it holds a `/`, in
   * which case the colon separated a registry host from its port.
   */
  lemma TagAfterSingleColon(config: BuildContextConfig, name: string, tag: string)
    requires config.image == Some(name + ":" + tag)
    requires ':' !in name && ':' !in tag
    ensures config.ImageTag() == Some(if '/' in tag then Latest else tag)
  {
    SplitJoin([name, tag], ':');
    assert Join([name, tag], ':') == name + ":" + tag;
  }

  /** With two colons, the text after the second is the tag, `/` or not. */
  lemma TagAfterSecondColon(config: BuildContextConfig, host: string, path: string, tag: string)
    requires config.image == Some(host + ":" + path + ":" + tag)
    requires ':' !in host && ':' !in path && ':' !in tag
    ensures config.ImageTag() == Some(tag)
  {
    SplitJoin([host, path, tag], ':');
    assert [host, path, tag][1..] == [path, tag] && [path, tag][1..] == [tag];
    assert Join([path, tag], ':') == path + ":" + tag;
    assert Join([host, path, tag], ':') == host + ":" + path + ":" + tag;
  }

  /** `ubuntu:18.04` is tagged `18.04`. */
  lemma VersionTagExample(config: BuildContextConfig)
    requires config.image == Some("ubuntu:18.04")
    ensures config.ImageTag() == Some("18.04")
  {
    assert "ubuntu:18.04" == "ubuntu" + ":" + "18.04";
    assert forall k :: 0 <= k < |"18.04"| ==> "18.04"[k] != '/';
    TagAfterSingleColon(config, "ubuntu", "18.04");
  }

  /** `myregistry.io:5000/ubuntu` names a registry port, not a tag. */
  lemma RegistryPortExample(config: BuildContextConfig)
    requires config.image == Some("myregistry.io:5000/ubuntu")
    ensures config.ImageTag() == Some("latest")
  {
    assert "myregistry.io:5000/ubuntu" == "myregistry.io" + ":" + "5000/ubuntu";
    assert "5000/ubuntu"[4] == '/';
    TagAfterSingleColon(config, "myregistry.io", "5000/ubuntu");
  }

  /** `localhost:5000/ubuntu:18.04` has a registry port and the tag `18.04`. */
  lemma RegistryPortAndTagExample(config: BuildContextConfig)
    requires config.image == Some("localhost:5000/ubuntu:18.04")
    ensures config.ImageTag() == Some("18.04")
  {
    assert "localhost:5000/ubuntu:18.04" == "localhost" + ":" + "5000/ubuntu" + ":" + "18.04";
    TagAfterSecondColon(config, "localhost", "5000/ubuntu", "18.04");
  }
}
