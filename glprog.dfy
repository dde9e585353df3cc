/** pglProgram: an OpenGL ES shader program and the uniform locations resolved
    for it at link time. Each setter decides which uniform uploads to issue, in
    what order, to which location and with what payload; the functions below
    give that decision as a command sequence, and each method appends exactly
    that sequence to the driver's stream. A location of -1 means the linked
    program does not declare the uniform. */
module GlProgram {
  import opened Pddi
  import opened Gl

  /** The locations of one element of the shader's `lights` array. */
  datatype LightUniforms = LightUniforms(enabled: Location, position: Location, colour: Location, attenuation: Location)

  /** The scalar location fields of pglProgram. */
  datatype UniformTable = UniformTable(
    projection: Location,
    modelview: Location,
    normalmatrix: Location,
    alpharef: Location,
    sampler: Location,
    acs: Location,
    acm: Location,
    dcm: Location,
    scm: Location,
    ecm: Location,
    srm: Location)

  const Unresolved: LightUniforms := LightUniforms(NoLocation, NoLocation, NoLocation, NoLocation)

  const InitialTable: UniformTable :=
    UniformTable(NoLocation, NoLocation, NoLocation, NoLocation, NoLocation, NoLocation,
                 NoLocation, NoLocation, NoLocation, NoLocation, NoLocation)

  /** An upload issued only when the program declares the uniform. */
  function Upload(loc: Location, v: Value): seq<Command> {
    if Present(loc) then [Uniform(loc, v)] else []
  }

  /** UniformColour: glUniform4f of the colour's channels divided by 255, with
      the division left to the Colour4 payload. */
  function UniformColour(loc: Location, c: Colour): (r: Command)
    ensures r.Uniform? && r.location == loc
    ensures r.value.Colour4? && r.value.c == c
  {
    Uniform(loc, Colour4(c))
  }

  // ---------------------------------------------------------------- setters

  function ProjectionCommands(projection: Location, m: Matrix): seq<Command> {
    Upload(projection, Matrix4(m))
  }

  function ModelViewCommands(modelview: Location, normalmatrix: Location, m: Matrix): seq<Command> {
    Upload(modelview, Matrix4(m)) + Upload(normalmatrix, Matrix4(InverseTransposeOf(m)))
  }

  /** Lit environments upload the material colours and shininess, whether or
      not the program declares them. */
  function MaterialCommands(t: UniformTable, env: TextureEnv): seq<Command> {
    if env.lit then
      [UniformColour(t.acm, env.ambient),
       UniformColour(t.ecm, env.emissive),
       UniformColour(t.dcm, env.diffuse),
       UniformColour(t.scm, env.specular),
       Uniform(t.srm, Float1(env.shininess))]
    else []
  }

  /** The alpha-test reference may only be uploaded for the compare modes the
      shader implements: greater and greater-or-equal. */
  predicate AlphaCompareAllowed(alpharef: Location, env: TextureEnv) {
    env.alphaTest && Present(alpharef) ==>
      env.alphaCompareMode == Greater || env.alphaCompareMode == GreaterEqual
  }

  function AlphaRefCommands(alpharef: Location, env: TextureEnv): (r: seq<Command>)
    requires AlphaCompareAllowed(alpharef, env)
    ensures |r| <= 1
    ensures r != [] <==> env.alphaTest && Present(alpharef)
    ensures r != [] ==> r[0] == Uniform(alpharef, Float1(env.alphaRef))
  {
    if env.alphaTest && Present(alpharef) then
      [Uniform(alpharef, Float1(if env.alphaTest then env.alphaRef else 0.0))]
    else []
  }

  function TextureEnvCommands(t: UniformTable, env: TextureEnv): seq<Command>
    requires AlphaCompareAllowed(t.alpharef, env)
  {
    Upload(t.sampler, Int1(0)) + MaterialCommands(t, env) + AlphaRefCommands(t.alpharef, env)
  }

  function AmbientLightCommands(acs: Location, ambient: Colour): seq<Command> {
    [UniformColour(acs, ambient)]
  }

  /** The homogeneous light vector: a directional light is sent as the
      direction towards the light (its world direction negated) with w = 0, a
      point light as its world position with w = 1. */
  function LightVector(l: Light): (v: Vec4)
    requires l.kind != Spot
    ensures v.w == (if l.kind == Directional then 0.0 else 1.0)
    ensures l.kind == Directional ==> Vector(-v.x, -v.y, -v.z) == l.worldDirection
    ensures l.kind == Point ==> Vector(v.x, v.y, v.z) == l.worldPosition
  {
    match l.kind
    case Directional => Vec4(-l.worldDirection.x, -l.worldDirection.y, -l.worldDirection.z, 0.0)
    case Point => Vec4(l.worldPosition.x, l.worldPosition.y, l.worldPosition.z, 1.0)
  }

  /** A light index the wrapper accepts: within the `lights` array. */
  predicate LightHandleInRange(handle: int) {
    0 <= handle < MaxLights
  }

  /** The light index guard as pglProgram writes it: only too-large indices
      are skipped. */
  predicate LightHandleSkippedAsWritten(handle: int) {
    handle >= MaxLights
  }

  function LightCommands(u: LightUniforms, l: Light): seq<Command>
    requires l.kind != Spot
  {
    [Uniform(u.enabled, Int1(if l.enabled then 1 else 0)),
     Uniform(u.position, Float4(LightVector(l))),
     UniformColour(u.colour, l.colour),
     Uniform(u.attenuation, Float3(l.attenA, l.attenB, l.attenC))]
  }

  /** The uploads SetLightState issues: none for an index outside the lights
      array, otherwise four uploads to that light's locations, in the order
      enabled, position, colour, attenuation. */
  function LightStateCommands(lights: seq<LightUniforms>, handle: int, l: Light): (r: seq<Command>)
    requires |lights| == MaxLights
    requires LightHandleInRange(handle) ==> l.kind != Spot
    ensures !LightHandleInRange(handle) <==> r == []
    ensures LightHandleInRange(handle) ==>
      Uploads(r) && |r| == 4
      && r[0].location == lights[handle].enabled
      && r[1].location == lights[handle].position
      && r[2].location == lights[handle].colour
      && r[3].location == lights[handle].attenuation
  {
    if LightHandleInRange(handle) then LightCommands(lights[handle], l) else []
  }

  // ---------------------------------------------------------------- linking

  /** The character '0' + i, truncated to eight bits as the C++ char
      conversion does. */
  function DigitChar(i: nat): (c: char)
    ensures c as int < 256 && c as int % 256 == (48 + i) % 256
    ensures i < 10 ==> c == "0123456789"[i]
  {
    ((48 + i) % 256) as char
  }

  /** The name prefix of element i of the shader's lights array: `lights[`,
      the digit character for i, then `].`. */
  function LightPrefix(i: nat): (p: string)
    ensures |p| == 10 && p[..7] == "lights[" && p[8..] == "]."
    ensures p[7] as int == (48 + i) % 256
  {
    "lights[" + [DigitChar(i)] + "]."
  }

  function LightFieldNames(i: nat): seq<string> {
    [LightPrefix(i) + "enabled", LightPrefix(i) + "position",
     LightPrefix(i) + "colour", LightPrefix(i) + "attenuation"]
  }

  /** The uniforms resolved before and after the lights, in lookup order. */
  const NamesBeforeLights: seq<string> := ["projection", "modelview", "normalmatrix", "alpharef", "tex"]
  const NamesAfterLights: seq<string> := ["acs", "acm", "dcm", "scm", "ecm", "srm"]

  function Lookups(program: nat, names: seq<string>): seq<Command> {
    seq(|names|, k requires 0 <= k < |names| => GetUniformLocation(program, names[k]))
  }

  /** The lookups for lights 0 .. n-1, light by light. */
  function LightLookups(program: nat, n: nat): seq<Command> {
    if n == 0 then [] else LightLookups(program, n - 1) + Lookups(program, LightFieldNames(n - 1))
  }

  function LookupCommands(program: nat): seq<Command> {
    Lookups(program, NamesBeforeLights) + LightLookups(program, MaxLights) + Lookups(program, NamesAfterLights)
  }

  function ResolveTable(d: map<string, nat>): UniformTable {
    UniformTable(
      Resolve(d, "projection"), Resolve(d, "modelview"), Resolve(d, "normalmatrix"),
      Resolve(d, "alpharef"), Resolve(d, "tex"), Resolve(d, "acs"), Resolve(d, "acm"),
      Resolve(d, "dcm"), Resolve(d, "scm"), Resolve(d, "ecm"), Resolve(d, "srm"))
  }

  function ResolveLight(d: map<string, nat>, i: nat): LightUniforms {
    var names := LightFieldNames(i);
    LightUniforms(Resolve(d, names[0]), Resolve(d, names[1]), Resolve(d, names[2]), Resolve(d, names[3]))
  }

  function ResolvedLights(d: map<string, nat>): seq<LightUniforms> {
    seq(MaxLights, i requires 0 <= i < MaxLights => ResolveLight(d, i))
  }

  function AttachCommands(program: nat, vertexShader: nat, fragmentShader: nat): seq<Command> {
    (if vertexShader != 0 then [AttachShader(program, vertexShader)] else [])
    + (if fragmentShader != 0 then [AttachShader(program, fragmentShader)] else [])
  }

  function DetachCommands(program: nat, vertexShader: nat, fragmentShader: nat): seq<Command> {
    (if vertexShader != 0 then [DetachShader(program, vertexShader)] else [])
    + (if fragmentShader != 0 then [DetachShader(program, fragmentShader)] else [])
  }

  /** The fixed vertex attribute conventions, bound before linking. */
  function BindCommands(program: nat): seq<Command> {
    [BindAttribLocation(program, 0, "position"),
     BindAttribLocation(program, 1, "normal"),
     BindAttribLocation(program, 2, "texcoord"),
     BindAttribLocation(program, 3, "color")]
  }

  /** The calls LinkProgram makes when glCreateProgram returns `program` and
      the link status is `linked`. */
  function LinkCommands(program: nat, vertexShader: nat, fragmentShader: nat, linked: bool): seq<Command> {
    [CreateProgram(program)] + AttachCommands(program, vertexShader, fragmentShader)
    + BindCommands(program) + [LinkProgram(program), GetLinkStatus(program)]
    + (if linked then LookupCommands(program) + DetachCommands(program, vertexShader, fragmentShader) else [])
  }

  /** ~pglProgram. */
  function DestructorCommands(program: nat): seq<Command> {
    if program != 0 then [DeleteProgram(program)] else []
  }

  /** CreateProgram releases its only reference when linking fails. */
  function CreateProgramCommands(program: nat, vertexShader: nat, fragmentShader: nat, linked: bool): seq<Command> {
    LinkCommands(program, vertexShader, fragmentShader, linked)
    + (if linked then [] else DestructorCommands(program))
  }

  function CompileCommands(shader: nat, source: string, compiled: bool): seq<Command> {
    [ShaderSource(shader, source), CompileShader(shader), GetCompileStatus(shader)]
    + (if compiled then [] else [DeleteShader(shader)])
  }

  // ---------------------------------------------------------------- the class

  class Program {
    var program: nat
    var projection: Location
    var modelview: Location
    var normalmatrix: Location
    var alpharef: Location
    var sampler: Location
    var acs: Location
    var acm: Location
    var dcm: Location
    var scm: Location
    var ecm: Location
    var srm: Location
    const lights: array<LightUniforms>
    /** The reference count of the engine's object base class. */
    var refCount: nat

    ghost predicate Valid()
      reads this
    {
      lights.Length == MaxLights
    }

    function Table(): UniformTable
      reads this
    {
      UniformTable(projection, modelview, normalmatrix, alpharef, sampler, acs, acm, dcm, scm, ecm, srm)
    }

    constructor ()
      ensures Valid() && fresh(lights)
      ensures program == 0 && refCount == 0
      ensures Table() == InitialTable
      ensures forall i :: 0 <= i < MaxLights ==> lights[i] == Unresolved
    {
      program := 0;
      projection, modelview, normalmatrix, alpharef, sampler, acs := -1, -1, -1, -1, -1, -1;
      acm, dcm, scm, ecm, srm := -1, -1, -1, -1, -1;
      lights := new LightUniforms[MaxLights](_ => Unresolved);
      refCount := 0;
    }

    /** ~pglProgram: deletes the driver program if one was created. */
    method Destroy(gl: Driver)
      modifies gl
      ensures gl.trace == old(gl.trace) + DestructorCommands(program)
    {
      if program != 0 {
        gl.Issue(DeleteProgram(program));
      }
    }

    method AddRef()
      modifies this`refCount
      ensures refCount == old(refCount) + 1
    {
      refCount := refCount + 1;
    }

    /** Drops one reference; the last one runs the destructor. */
    method Release(gl: Driver)
      requires refCount > 0
      modifies this`refCount, gl
      ensures refCount == old(refCount) - 1
      ensures gl.trace == old(gl.trace) + (if refCount == 0 then DestructorCommands(program) else [])
    {
      refCount := refCount - 1;
      if refCount == 0 {
        Destroy(gl);
      }
    }

    method SetProjectionMatrix(gl: Driver, matrix: Matrix)
      modifies gl
      ensures gl.trace == old(gl.trace) + ProjectionCommands(projection, matrix)
    {
      if projection >= 0 {
        gl.Issue(Uniform(projection, Matrix4(matrix)));
      }
    }

    method SetModelViewMatrix(gl: Driver, matrix: Matrix)
      modifies gl
      ensures gl.trace == old(gl.trace) + ModelViewCommands(modelview, normalmatrix, matrix)
    {
      if modelview >= 0 {
        gl.Issue(Uniform(modelview, Matrix4(matrix)));
      }
      if normalmatrix >= 0 {
        var inverse := InverseTransposeOf(matrix);
        gl.Issue(Uniform(normalmatrix, Matrix4(inverse)));
      }
    }

    method SetTextureEnvironment(gl: Driver, texEnv: TextureEnv)
      requires AlphaCompareAllowed(alpharef, texEnv)
      modifies gl
      ensures gl.trace == old(gl.trace) + TextureEnvCommands(Table(), texEnv)
    {
      if sampler >= 0 {
        gl.Issue(Uniform(sampler, Int1(0)));
      }
      if texEnv.lit {
        IssueMaterial(gl, texEnv);
      }
      if texEnv.alphaTest && alpharef >= 0 {
        assert texEnv.alphaCompareMode == Greater || texEnv.alphaCompareMode == GreaterEqual;
        gl.Issue(Uniform(alpharef, Float1(if texEnv.alphaTest then texEnv.alphaRef else 0.0)));
      }
    }

    /** The material uploads of a lit environment, none of them guarded. */
    method IssueMaterial(gl: Driver, texEnv: TextureEnv)
      requires texEnv.lit
      modifies gl
      ensures gl.trace == old(gl.trace) + MaterialCommands(Table(), texEnv)
    {
      gl.Issue(UniformColour(acm, texEnv.ambient));
      gl.Issue(UniformColour(ecm, texEnv.emissive));
      gl.Issue(UniformColour(dcm, texEnv.diffuse));
      gl.Issue(UniformColour(scm, texEnv.specular));
      gl.Issue(Uniform(srm, Float1(texEnv.shininess)));
    }

    /** An index outside the lights array issues nothing. The guard checks
        both bounds, where pglProgram checks only the upper one (a negative
        index would read before the array). Spot lights are not supported:
        pglProgram asserts, so an accepted index with a spot light is excluded
        by the precondition. */
    method SetLightState(gl: Driver, handle: int, lightState: Light)
      requires Valid()
      requires LightHandleInRange(handle) ==> lightState.kind != Spot
      modifies gl
      ensures gl.trace == old(gl.trace) + LightStateCommands(lights[..], handle, lightState)
    {
      if handle < 0 || handle >= MaxLights {
        return;
      }
      var dir := new real[4];
      match lightState.kind {
        case Directional =>
          dir[0] := -lightState.worldDirection.x;
          dir[1] := -lightState.worldDirection.y;
          dir[2] := -lightState.worldDirection.z;
          dir[3] := 0.0;
        case Point =>
          dir[0] := lightState.worldPosition.x;
          dir[1] := lightState.worldPosition.y;
          dir[2] := lightState.worldPosition.z;
          dir[3] := 1.0;
        case Spot =>
          assert false;
      }
      var u := lights[handle];
      gl.Issue(Uniform(u.enabled, Int1(if lightState.enabled then 1 else 0)));
      gl.Issue(Uniform(u.position, Float4(Vec4(dir[0], dir[1], dir[2], dir[3]))));
      gl.Issue(UniformColour(u.colour, lightState.colour));
      gl.Issue(Uniform(u.attenuation, Float3(lightState.attenA, lightState.attenB, lightState.attenC)));
    }

    method SetAmbientLight(gl: Driver, ambient: Colour)
      modifies gl
      ensures gl.trace == old(gl.trace) + AmbientLightCommands(acs, ambient)
    {
      gl.Issue(UniformColour(acs, ambient));
    }

    /** Links the given stages. `created` is the name glCreateProgram returns,
        `linked` the link status the driver reports and `directory` the active
        uniforms of the linked program with their locations. */
    method LinkProgram(gl: Driver, vertexShader: nat, fragmentShader: nat,
                       created: nat, linked: bool, directory: map<string, nat>) returns (ok: bool)
      requires Valid()
      modifies this, lights, gl
      ensures Valid() && refCount == old(refCount)
      ensures ok == linked && program == created
      ensures gl.trace == old(gl.trace) + LinkCommands(created, vertexShader, fragmentShader, linked)
      ensures linked ==> Table() == ResolveTable(directory) && lights[..] == ResolvedLights(directory)
      ensures !linked ==> Table() == old(Table()) && lights[..] == old(lights[..])
    {
      program := created;
      IssueLinkPreamble(gl, vertexShader, fragmentShader);
      if !linked {
        return false;
      }
      ResolveUniforms(gl, directory);
      IssueDetachments(gl, vertexShader, fragmentShader);
      return true;
    }

    /** Creation, attachment, the attribute conventions, the link and the
        link-status query. */
    method IssueLinkPreamble(gl: Driver, vertexShader: nat, fragmentShader: nat)
      modifies gl
      ensures gl.trace == old(gl.trace) + [Command.CreateProgram(program)]
        + AttachCommands(program, vertexShader, fragmentShader) + BindCommands(program)
        + [Command.LinkProgram(program), GetLinkStatus(program)]
    {
      gl.Issue(Command.CreateProgram(program));
      IssueAttachments(gl, vertexShader, fragmentShader);
      gl.Issue(BindAttribLocation(program, 0, "position"));
      gl.Issue(BindAttribLocation(program, 1, "normal"));
      gl.Issue(BindAttribLocation(program, 2, "texcoord"));
      gl.Issue(BindAttribLocation(program, 3, "color"));
      gl.Issue(Command.LinkProgram(program));
      gl.Issue(GetLinkStatus(program));
    }

    /** Every location lookup of a successful link, in order. */
    method ResolveUniforms(gl: Driver, directory: map<string, nat>)
      requires Valid()
      modifies this, lights, gl
      ensures program == old(program) && refCount == old(refCount)
      ensures gl.trace == old(gl.trace) + LookupCommands(program)
      ensures Table() == ResolveTable(directory) && lights[..] == ResolvedLights(directory)
    {
      ResolveScalarsBeforeLights(gl, directory);
      ResolveLights(gl, directory);
      ResolveScalarsAfterLights(gl, directory);
    }

    method IssueAttachments(gl: Driver, vertexShader: nat, fragmentShader: nat)
      modifies gl
      ensures gl.trace == old(gl.trace) + AttachCommands(program, vertexShader, fragmentShader)
    {
      if vertexShader != 0 {
        gl.Issue(AttachShader(program, vertexShader));
      }
      if fragmentShader != 0 {
        gl.Issue(AttachShader(program, fragmentShader));
      }
    }

    /** After a successful link the stages are detached again. */
    method IssueDetachments(gl: Driver, vertexShader: nat, fragmentShader: nat)
      modifies gl
      ensures gl.trace == old(gl.trace) + DetachCommands(program, vertexShader, fragmentShader)
    {
      if vertexShader != 0 {
        gl.Issue(DetachShader(program, vertexShader));
      }
      if fragmentShader != 0 {
        gl.Issue(DetachShader(program, fragmentShader));
      }
    }

    /** The lookups LinkProgram makes before the lights. */
    method ResolveScalarsBeforeLights(gl: Driver, directory: map<string, nat>)
      modifies this`projection, this`modelview, this`normalmatrix, this`alpharef, this`sampler, gl
      ensures gl.trace == old(gl.trace) + Lookups(program, NamesBeforeLights)
      ensures projection == Resolve(directory, "projection") && modelview == Resolve(directory, "modelview")
      ensures normalmatrix == Resolve(directory, "normalmatrix") && alpharef == Resolve(directory, "alpharef")
      ensures sampler == Resolve(directory, "tex")
    {
      projection := gl.QueryUniformLocation(program, directory, "projection");
      modelview := gl.QueryUniformLocation(program, directory, "modelview");
      normalmatrix := gl.QueryUniformLocation(program, directory, "normalmatrix");
      alpharef := gl.QueryUniformLocation(program, directory, "alpharef");
      sampler := gl.QueryUniformLocation(program, directory, "tex");
    }

    /** The lookups LinkProgram makes after the lights. */
    method ResolveScalarsAfterLights(gl: Driver, directory: map<string, nat>)
      modifies this`acs, this`acm, this`dcm, this`scm, this`ecm, this`srm, gl
      ensures gl.trace == old(gl.trace) + Lookups(program, NamesAfterLights)
      ensures acs == Resolve(directory, "acs") && acm == Resolve(directory, "acm")
      ensures dcm == Resolve(directory, "dcm") && scm == Resolve(directory, "scm")
      ensures ecm == Resolve(directory, "ecm") && srm == Resolve(directory, "srm")
    {
      acs := gl.QueryUniformLocation(program, directory, "acs");
      acm := gl.QueryUniformLocation(program, directory, "acm");
      dcm := gl.QueryUniformLocation(program, directory, "dcm");
      scm := gl.QueryUniformLocation(program, directory, "scm");
      ecm := gl.QueryUniformLocation(program, directory, "ecm");
      srm := gl.QueryUniformLocation(program, directory, "srm");
    }

    /** The loop of LinkProgram that resolves each light's four locations. */
    method ResolveLights(gl: Driver, directory: map<string, nat>)
      requires Valid()
      modifies lights, gl
      ensures gl.trace == old(gl.trace) + LightLookups(program, MaxLights)
      ensures lights[..] == ResolvedLights(directory)
    {
      var i := 0;
      while i < MaxLights
        invariant 0 <= i <= MaxLights
        invariant gl.trace == old(gl.trace) + LightLookups(program, i)
        invariant forall k :: 0 <= k < i ==> lights[k] == ResolveLight(directory, k)
      {
        var prefix := LightPrefix(i);
        var enabled := gl.QueryUniformLocation(program, directory, prefix + "enabled");
        var position := gl.QueryUniformLocation(program, directory, prefix + "position");
        var colour := gl.QueryUniformLocation(program, directory, prefix + "colour");
        var attenuation := gl.QueryUniformLocation(program, directory, prefix + "attenuation");
        lights[i] := LightUniforms(enabled, position, colour, attenuation);
        assert Lookups(program, LightFieldNames(i)) ==
          [GetUniformLocation(program, prefix + "enabled"), GetUniformLocation(program, prefix + "position"),
           GetUniformLocation(program, prefix + "colour"), GetUniformLocation(program, prefix + "attenuation")];
        i := i + 1;
      }
    }

    /** glShaderSource, glCompileShader and the status query; a stage that
        fails to compile is deleted. */
    static method CompileShader(gl: Driver, shader: nat, source: string, compiled: bool) returns (ok: bool)
      modifies gl
      ensures ok == compiled
      ensures gl.trace == old(gl.trace) + CompileCommands(shader, source, compiled)
    {
      gl.Issue(ShaderSource(shader, source));
      gl.Issue(Command.CompileShader(shader));
      gl.Issue(GetCompileStatus(shader));
      if !compiled {
        gl.Issue(DeleteShader(shader));
        return false;
      }
      return true;
    }

    /** The factory: a new program holding one reference, or null when linking
        fails, in which case that reference is released and the destructor
        deletes the driver program. */
    static method CreateProgram(gl: Driver, vertexShader: nat, fragmentShader: nat,
                                created: nat, linked: bool, directory: map<string, nat>) returns (p: Program?)
      modifies gl
      ensures (p == null) == !linked
      ensures p != null ==>
        fresh(p) && fresh(p.lights) && p.Valid() && p.refCount == 1 && p.program == created
        && p.Table() == ResolveTable(directory) && p.lights[..] == ResolvedLights(directory)
      ensures gl.trace == old(gl.trace) + CreateProgramCommands(created, vertexShader, fragmentShader, linked)
    {
      var program := new Program();
      program.AddRef();
      var ok := program.LinkProgram(gl, vertexShader, fragmentShader, created, linked, directory);
      if !ok {
        program.Release(gl);
        return null;
      }
      return program;
    }
  }
}
