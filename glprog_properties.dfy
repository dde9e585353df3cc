/** What the calls of pglProgram mean for the driver: the uniform values each
    setter leaves behind, the order of the link sequence, the naming scheme of
    the light uniforms, and the lifetime of the driver objects. */
module GlProgramProperties {
  import opened Pddi
  import opened Gl
  import opened GlProgram

  // ------------------------------------------------------------ the setters

  /** The projection uniform holds the matrix afterwards; nothing else
      changes, and nothing at all when the program has no such uniform. */
  lemma ProjectionMatrixEffect(st: DriverState, projection: Location, m: Matrix)
    ensures Holds(Run(st, ProjectionCommands(projection, m)), projection, Matrix4(m))
    ensures OnlyUniformsChanged(st, Run(st, ProjectionCommands(projection, m)), PresentOnly({projection}))
    ensures !Present(projection) ==> Run(st, ProjectionCommands(projection, m)) == st
  {
    var t := ProjectionCommands(projection, m);
    RunUploads(st, t);
    WidenFrame(st, Run(st, t), Targets(t), PresentOnly({projection}));
  }

  /** The model-view uniform holds the matrix and the normal-matrix uniform
      its inverse-transpose, each only if the program declares it. */
  lemma ModelViewMatrixEffect(st: DriverState, modelview: Location, normalmatrix: Location, m: Matrix)
    requires DistinctPresent([modelview, normalmatrix])
    ensures var st' := Run(st, ModelViewCommands(modelview, normalmatrix, m));
      Holds(st', modelview, Matrix4(m))
      && Holds(st', normalmatrix, Matrix4(InverseTransposeOf(m)))
      && OnlyUniformsChanged(st, st', PresentOnly({modelview, normalmatrix}))
  {
    var t := ModelViewCommands(modelview, normalmatrix, m);
    assert Uploads(t);
    assert DistinctTargets(t) by {
      if Present(modelview) && Present(normalmatrix) {
        assert [modelview, normalmatrix][0] != [modelview, normalmatrix][1];
      }
    }
    RunUploads(st, t);
    assert Present(modelview) ==> t[0] == Uniform(modelview, Matrix4(m));
    assert Present(normalmatrix) ==> t[|t| - 1] == Uniform(normalmatrix, Matrix4(InverseTransposeOf(m)));
    WidenFrame(st, Run(st, t), Targets(t), PresentOnly({modelview, normalmatrix}));
  }

  /** The locations SetTextureEnvironment may write. */
  function TextureEnvLocations(t: UniformTable): seq<Location> {
    [t.sampler, t.acm, t.ecm, t.dcm, t.scm, t.srm, t.alpharef]
  }

  /** The sampler uses texture unit 0; a lit environment leaves the material
      colours and the shininess in their uniforms; with alpha testing on, the
      reference uniform holds the reference value; nothing else changes. */
  lemma TextureEnvEffect(st: DriverState, t: UniformTable, env: TextureEnv)
    requires AlphaCompareAllowed(t.alpharef, env)
    requires DistinctPresent(TextureEnvLocations(t))
    ensures var st' := Run(st, TextureEnvCommands(t, env));
      Holds(st', t.sampler, Int1(0))
      && (env.lit ==>
            Holds(st', t.acm, Colour4(env.ambient)) && Holds(st', t.ecm, Colour4(env.emissive))
            && Holds(st', t.dcm, Colour4(env.diffuse)) && Holds(st', t.scm, Colour4(env.specular))
            && Holds(st', t.srm, Float1(env.shininess)))
      && (env.alphaTest ==> Holds(st', t.alpharef, Float1(env.alphaRef)))
      && OnlyUniformsChanged(st, st', PresentOnly(
           {t.sampler} + (if env.lit then {t.acm, t.ecm, t.dcm, t.scm, t.srm} else {})
           + (if env.alphaTest then {t.alpharef} else {})))
  {
    var s, mat, a := Upload(t.sampler, Int1(0)), MaterialCommands(t, env), AlphaRefCommands(t.alpharef, env);
    var cmds := TextureEnvCommands(t, env);
    assert cmds == s + mat + a;
    var locs := TextureEnvLocations(t);
    assert Uploads(cmds);
    assert DistinctTargets(cmds) by {
      // Every upload at position i of the stream targets locs[Slot(i)], with
      // Slot strictly increasing.
      var slot := (i: int) =>
        if i < |s| then 0 else if i < |s| + |mat| then 1 + (i - |s|) else 6;
      forall i | 0 <= i < |cmds| ensures 0 <= slot(i) < 7 && cmds[i].location == locs[slot(i)] {
        if i < |s| {
        } else if i < |s| + |mat| {
          assert cmds[i] == mat[i - |s|];
        } else {
          assert cmds[i] == a[i - |s| - |mat|];
        }
      }
      forall i, j | 0 <= i < j < |cmds| && Present(cmds[i].location)
        ensures cmds[i].location != cmds[j].location
      {
        assert slot(i) < slot(j);
      }
    }
    RunUploads(st, cmds);
    var st' := Run(st, cmds);
    if Present(t.sampler) {
      assert cmds[0] == Uniform(t.sampler, Int1(0));
    }
    if env.lit {
      assert cmds[|s|] == Uniform(t.acm, Colour4(env.ambient));
      assert cmds[|s| + 1] == Uniform(t.ecm, Colour4(env.emissive));
      assert cmds[|s| + 2] == Uniform(t.dcm, Colour4(env.diffuse));
      assert cmds[|s| + 3] == Uniform(t.scm, Colour4(env.specular));
      assert cmds[|s| + 4] == Uniform(t.srm, Float1(env.shininess));
    }
    if env.alphaTest && Present(t.alpharef) {
      assert cmds[|s| + |mat|] == Uniform(t.alpharef, Float1(env.alphaRef));
    }
    WidenFrame(st, st', Targets(cmds), PresentOnly(
      {t.sampler} + (if env.lit then {t.acm, t.ecm, t.dcm, t.scm, t.srm} else {})
      + (if env.alphaTest then {t.alpharef} else {})));
  }

  /** The material uploads are not guarded by location, but when the program
      declares none of those uniforms they change nothing. */
  lemma MaterialUploadsToAbsentUniforms(st: DriverState, t: UniformTable, env: TextureEnv)
    requires !Present(t.acm) && !Present(t.ecm) && !Present(t.dcm) && !Present(t.scm) && !Present(t.srm)
    ensures Run(st, MaterialCommands(t, env)) == st
  {
    var mat := MaterialCommands(t, env);
    assert Uploads(mat) && DistinctTargets(mat);
    RunUploads(st, mat);
    assert Targets(mat) == {};
    var st' := Run(st, mat);
    assert st'.uniforms == st'.uniforms - {} && st.uniforms == st.uniforms - {};
  }

  /** The ambient-light uniform holds the colour (when declared). */
  lemma AmbientLightEffect(st: DriverState, acs: Location, ambient: Colour)
    ensures Holds(Run(st, AmbientLightCommands(acs, ambient)), acs, Colour4(ambient))
    ensures OnlyUniformsChanged(st, Run(st, AmbientLightCommands(acs, ambient)), PresentOnly({acs}))
    ensures !Present(acs) ==> Run(st, AmbientLightCommands(acs, ambient)) == st
  {
    var t := AmbientLightCommands(acs, ambient);
    RunUploads(st, t);
    WidenFrame(st, Run(st, t), Targets(t), PresentOnly({acs}));
  }

  function LightLocations(u: LightUniforms): seq<Location> {
    [u.enabled, u.position, u.colour, u.attenuation]
  }

  /** An index outside the lights array changes nothing; otherwise the light's
      uniforms hold its enabled flag (1 or 0), its light vector, its colour
      and its attenuation coefficients, and nothing else changes. */
  lemma LightStateEffect(st: DriverState, lights: seq<LightUniforms>, handle: int, l: Light)
    requires |lights| == MaxLights
    requires LightHandleInRange(handle) ==> l.kind != Spot
    requires LightHandleInRange(handle) ==> DistinctPresent(LightLocations(lights[handle]))
    ensures !LightHandleInRange(handle) ==> Run(st, LightStateCommands(lights, handle, l)) == st
    ensures LightHandleInRange(handle) ==>
      var u, st' := lights[handle], Run(st, LightStateCommands(lights, handle, l));
      Holds(st', u.enabled, Int1(if l.enabled then 1 else 0))
      && Holds(st', u.position, Float4(LightVector(l)))
      && Holds(st', u.colour, Colour4(l.colour))
      && Holds(st', u.attenuation, Float3(l.attenA, l.attenB, l.attenC))
      && OnlyUniformsChanged(st, st', PresentOnly({u.enabled, u.position, u.colour, u.attenuation}))
  {
    if LightHandleInRange(handle) {
      var u := lights[handle];
      var t := LightStateCommands(lights, handle, l);
      assert t == LightCommands(u, l);
      assert DistinctTargets(t) by {
        forall i, j | 0 <= i < j < |t| && Present(t[i].location) ensures t[i].location != t[j].location {
          assert t[i].location == LightLocations(u)[i] && t[j].location == LightLocations(u)[j];
        }
      }
      RunUploads(st, t);
      WidenFrame(st, Run(st, t), Targets(t), PresentOnly({u.enabled, u.position, u.colour, u.attenuation}));
    }
  }

  /** The fourth component tells the shader the kind of light. */
  function LightKindOf(v: Vec4): LightType {
    if v.w == 0.0 then Directional else Point
  }

  /** The shader can tell the kind of light from the light vector alone. */
  lemma LightKindFromVector(l: Light)
    requires l.kind != Spot
    ensures LightKindOf(LightVector(l)) == l.kind
  {
  }

  /** The guard pglProgram writes skips only indices at or above the maximum,
      so the index -1 reaches the lights array, whose indices start at 0. */
  lemma NegativeHandlePassesSourceGuard()
    ensures !LightHandleSkippedAsWritten(-1) && !LightHandleInRange(-1)
  {
  }

  /** With the range check, no index outside the array is ever used, and every
      upload SetLightState issues goes to the chosen light's locations. */
  lemma LightStateStaysInBounds(lights: seq<LightUniforms>, handle: int, l: Light)
    requires |lights| == MaxLights
    requires LightHandleInRange(handle) ==> l.kind != Spot
    ensures var t := LightStateCommands(lights, handle, l);
      Uploads(t) && (t != [] ==> 0 <= handle < |lights|)
      && forall i :: 0 <= i < |t| ==> t[i].location in LightLocations(lights[handle])
  {
  }

  // ---------------------------------------------------------------- names

  function DecimalDigit(n: nat): char
    requires n < 10
  {
    (48 + n) as char
  }

  /** The usual decimal rendering of a natural number. */
  function Decimal(n: nat): string
    decreases n
  {
    if n < 10 then [DecimalDigit(n)] else Decimal(n / 10) + [DecimalDigit(n % 10)]
  }

  lemma {:induction false} DecimalLength(n: nat)
    ensures |Decimal(n)| >= 1
    ensures n >= 10 ==> |Decimal(n)| >= 2
    decreases n
  {
    if n >= 10 {
      DecimalLength(n / 10);
    }
  }

  /** The prefix "lights[" + char('0' + i) + "]." is the GLSL name of element
      i of the lights array exactly when i is a single decimal digit. */
  lemma LightPrefixIsDecimal(i: nat)
    ensures LightPrefix(i) == "lights[" + Decimal(i) + "]." <==> i < 10
  {
    DecimalLength(i);
    if i >= 10 {
      assert |"lights[" + Decimal(i) + "]."| > |LightPrefix(i)|;
    }
  }

  /** So every light the wrapper resolves gets its GLSL name. */
  lemma LightPrefixesAreDecimal(i: nat)
    requires i < MaxLights
    ensures LightPrefix(i) == "lights[" + Decimal(i) + "]."
  {
    LightPrefixIsDecimal(i);
  }

  /** Different lights (below the 8-bit wrap of the digit character) and
      different fields give different uniform names. */
  lemma LightNameInjective(i: nat, j: nat, f: string, g: string)
    requires i < 208 && j < 208
    ensures LightPrefix(i) + f == LightPrefix(j) + g <==> i == j && f == g
  {
    if LightPrefix(i) + f == LightPrefix(j) + g {
      assert (LightPrefix(i) + f)[7] == DigitChar(i);
      assert (LightPrefix(j) + g)[7] == DigitChar(j);
      assert (LightPrefix(i) + f)[10..] == f;
      assert (LightPrefix(j) + g)[10..] == g;
    }
  }

  /** With a driver that gives distinct active uniforms distinct locations,
      the locations each setter writes after a successful link are distinct,
      so the effect lemmas above apply to a linked program. */
  lemma LinkedLocationsDistinct(d: map<string, nat>)
    requires Injective(d)
    ensures DistinctPresent(TextureEnvLocations(ResolveTable(d)))
    ensures DistinctPresent([ResolveTable(d).modelview, ResolveTable(d).normalmatrix])
    ensures forall i :: 0 <= i < MaxLights ==> DistinctPresent(LightLocations(ResolvedLights(d)[i]))
  {
    var texNames := ["tex", "acm", "ecm", "dcm", "scm", "srm", "alpharef"];
    ResolveDistinct(d, texNames);
    assert TextureEnvLocations(ResolveTable(d))
      == seq(|texNames|, k requires 0 <= k < |texNames| => Resolve(d, texNames[k]));
    ResolveDistinct(d, ["modelview", "normalmatrix"]);
    assert [ResolveTable(d).modelview, ResolveTable(d).normalmatrix]
      == seq(2, k requires 0 <= k < 2 => Resolve(d, ["modelview", "normalmatrix"][k]));
    forall i | 0 <= i < MaxLights ensures DistinctPresent(LightLocations(ResolvedLights(d)[i])) {
      var names := LightFieldNames(i);
      var fields := ["enabled", "position", "colour", "attenuation"];
      forall a, b | 0 <= a < b < 4 ensures names[a] != names[b] {
        assert names[a] == LightPrefix(i) + fields[a] && names[b] == LightPrefix(i) + fields[b];
        LightNameInjective(i, i, fields[a], fields[b]);
      }
      ResolveDistinct(d, names);
      assert LightLocations(ResolvedLights(d)[i]) == seq(4, k requires 0 <= k < 4 => Resolve(d, names[k]));
    }
  }

  // ---------------------------------------------------------------- linking

  lemma {:induction false} LightLookupsAreLookups(p: nat, n: nat)
    ensures |LightLookups(p, n)| == 4 * n
    ensures forall i :: 0 <= i < |LightLookups(p, n)| ==>
      LightLookups(p, n)[i].GetUniformLocation? && LightLookups(p, n)[i].program == p
  {
    if n > 0 {
      LightLookupsAreLookups(p, n - 1);
      var prev: seq<Command>, last: seq<Command> := LightLookups(p, n - 1), Lookups(p, LightFieldNames(n - 1));
      assert LightLookups(p, n) == prev + last;
      forall i | 0 <= i < |prev + last|
        ensures (prev + last)[i].GetUniformLocation? && (prev + last)[i].program == p
      {
        if i >= |prev| { assert (prev + last)[i] == last[i - |prev|]; }
      }
    }
  }

  lemma LookupCommandsAreLookups(p: nat)
    ensures forall i :: 0 <= i < |LookupCommands(p)| ==>
      LookupCommands(p)[i].GetUniformLocation? && LookupCommands(p)[i].program == p
  {
    LightLookupsAreLookups(p, MaxLights);
    var a: seq<Command>, b: seq<Command>, c: seq<Command> := Lookups(p, NamesBeforeLights), LightLookups(p, MaxLights), Lookups(p, NamesAfterLights);
    forall i | 0 <= i < |a + b + c| ensures (a + b + c)[i].GetUniformLocation? && (a + b + c)[i].program == p {
      if i < |a| {
        assert (a + b + c)[i] == a[i];
      } else if i < |a| + |b| {
        assert (a + b + c)[i] == b[i - |a|];
      } else {
        assert (a + b + c)[i] == c[i - |a| - |b|];
      }
    }
  }

  /** The position of glLinkProgram in the link sequence. */
  function LinkIndex(vertexShader: nat, fragmentShader: nat): nat {
    1 + (if vertexShader != 0 then 1 else 0) + (if fragmentShader != 0 then 1 else 0) + 4
  }

  /** The attribute-location conventions. */
  const AttributeLocations: map<string, nat> := map["position" := 0, "normal" := 1, "texcoord" := 2, "color" := 3]

  /** The link sequence starts by creating the program; the stages are
      attached and every attribute convention is bound before the single
      glLinkProgram call; locations are looked up and stages detached only
      after it, and only when linking succeeded. */
  lemma LinkOrder(p: nat, vertexShader: nat, fragmentShader: nat, linked: bool)
    ensures var t, k := LinkCommands(p, vertexShader, fragmentShader, linked), LinkIndex(vertexShader, fragmentShader);
      k < |t| && t[0] == CreateProgram(p) && t[k] == LinkProgram(p)
      && (forall i :: 0 <= i < |t| && t[i].LinkProgram? ==> i == k)
      && (forall i :: 0 <= i < |t| && (t[i].AttachShader? || t[i].BindAttribLocation?) ==> 0 < i < k)
      && (forall i :: 0 <= i < |t| && (t[i].GetUniformLocation? || t[i].DetachShader?) ==> k < i && linked)
      && (forall i :: 0 <= i < |t| && t[i].BindAttribLocation? ==>
            t[i].program == p && t[i].name in AttributeLocations && AttributeLocations[t[i].name] == t[i].index)
      && (forall name :: name in AttributeLocations ==>
            exists i :: 0 < i < k && t[i] == BindAttribLocation(p, AttributeLocations[name], name))
  {
    var attach := AttachCommands(p, vertexShader, fragmentShader);
    var pre := [CreateProgram(p)] + attach + BindCommands(p);
    var tail := if linked then LookupCommands(p) + DetachCommands(p, vertexShader, fragmentShader) else [];
    var t := LinkCommands(p, vertexShader, fragmentShader, linked);
    var k := LinkIndex(vertexShader, fragmentShader);
    assert t == pre + [LinkProgram(p), GetLinkStatus(p)] + tail;
    assert |pre| == k;
    assert forall i :: 0 <= i < |attach| ==> attach[i].AttachShader?;
    LookupCommandsAreLookups(p);
    var look, detach := LookupCommands(p), DetachCommands(p, vertexShader, fragmentShader);
    assert forall i :: 0 <= i < |detach| ==> detach[i].DetachShader?;
    assert forall i :: 0 <= i < |tail| ==> tail[i].GetUniformLocation? || tail[i].DetachShader? by {
      if linked {
        forall i | 0 <= i < |tail| ensures tail[i].GetUniformLocation? || tail[i].DetachShader? {
          if i >= |look| { assert tail[i] == detach[i - |look|]; }
        }
      }
    }
    forall i | 0 <= i < |t|
      ensures i < k ==> t[i] == pre[i]
      ensures i == k ==> t[i] == LinkProgram(p)
      ensures i == k + 1 ==> t[i] == GetLinkStatus(p)
      ensures i > k + 1 ==> t[i] == tail[i - k - 2]
    {
    }
    forall i | 0 < i < |pre| ensures pre[i].AttachShader? || pre[i].BindAttribLocation? {
      if i <= |attach| { assert pre[i] == attach[i - 1]; } else { assert pre[i] == BindCommands(p)[i - 1 - |attach|]; }
    }
    forall name | name in AttributeLocations
      ensures exists i :: 0 < i < k && t[i] == BindAttribLocation(p, AttributeLocations[name], name)
    {
      var j := AttributeLocations[name];
      assert pre[1 + |attach| + j] == BindCommands(p)[j];
      assert t[1 + |attach| + j] == BindAttribLocation(p, AttributeLocations[name], name);
    }
  }

  // ------------------------------------------------------------ lifecycle

  /** The shader pairs LinkProgram attaches. */
  function AttachedPairs(p: nat, vertexShader: nat, fragmentShader: nat): set<(nat, nat)> {
    (if vertexShader != 0 then {(p, vertexShader)} else {}) + (if fragmentShader != 0 then {(p, fragmentShader)} else {})
  }

  lemma RunAttachments(st: DriverState, p: nat, vertexShader: nat, fragmentShader: nat)
    ensures Run(st, AttachCommands(p, vertexShader, fragmentShader))
      == st.(attached := st.attached + AttachedPairs(p, vertexShader, fragmentShader))
  {
    var a := if vertexShader != 0 then [AttachShader(p, vertexShader)] else [];
    var b := if fragmentShader != 0 then [AttachShader(p, fragmentShader)] else [];
    RunAppend(st, a, b);
  }

  lemma RunDetachments(st: DriverState, p: nat, vertexShader: nat, fragmentShader: nat)
    ensures Run(st, DetachCommands(p, vertexShader, fragmentShader))
      == st.(attached := st.attached - AttachedPairs(p, vertexShader, fragmentShader))
  {
    var a := if vertexShader != 0 then [DetachShader(p, vertexShader)] else [];
    var b := if fragmentShader != 0 then [DetachShader(p, fragmentShader)] else [];
    RunAppend(st, a, b);
  }

  /** Linking creates the program and attaches the stages; a successful link
      detaches them again. Uniforms and shader objects are untouched. */
  lemma LinkEffect(st: DriverState, p: nat, vertexShader: nat, fragmentShader: nat, linked: bool)
    requires p != 0
    ensures var pairs := AttachedPairs(p, vertexShader, fragmentShader);
      Run(st, LinkCommands(p, vertexShader, fragmentShader, linked))
      == st.(programs := st.programs + {p},
             attached := if linked then (st.attached + pairs) - pairs else st.attached + pairs)
  {
    var pairs := AttachedPairs(p, vertexShader, fragmentShader);
    var created := [CreateProgram(p)];
    var attach := AttachCommands(p, vertexShader, fragmentShader);
    var inert := BindCommands(p) + [LinkProgram(p), GetLinkStatus(p)] + (if linked then LookupCommands(p) else []);
    var detach := if linked then DetachCommands(p, vertexShader, fragmentShader) else [];
    assert LinkCommands(p, vertexShader, fragmentShader, linked) == created + attach + inert + detach;
    RunAppend(st, created + attach + inert, detach);
    RunAppend(st, created + attach, inert);
    RunAppend(st, created, attach);
    var st1 := Run(st, created);
    assert st1 == st.(programs := st.programs + {p});
    RunAttachments(st1, p, vertexShader, fragmentShader);
    LookupCommandsAreLookups(p);
    assert forall i :: 0 <= i < |inert| ==> Inert(inert[i]) by {
      var b := BindCommands(p) + [LinkProgram(p), GetLinkStatus(p)];
      var l := if linked then LookupCommands(p) else [];
      forall i | 0 <= i < |inert| ensures Inert(inert[i]) {
        if i >= |b| { assert inert[i] == l[i - |b|]; }
      }
    }
    var st2 := Run(st1, attach);
    RunInert(st2, inert);
    if linked {
      RunDetachments(st2, p, vertexShader, fragmentShader);
    }
  }

  /** CreateProgram leaves no driver program behind when linking fails, and
      exactly the new program when it succeeds; in both cases no stage stays
      attached and no uniform or shader object changes. */
  lemma CreateProgramResources(st: DriverState, p: nat, vertexShader: nat, fragmentShader: nat, linked: bool)
    requires p != 0 && p !in st.programs
    requires forall a :: a in st.attached ==> a.0 != p
    ensures var st' := Run(st, CreateProgramCommands(p, vertexShader, fragmentShader, linked));
      st'.programs == (if linked then st.programs + {p} else st.programs)
      && st'.attached == st.attached && st'.shaders == st.shaders && st'.uniforms == st.uniforms
  {
    var pairs := AttachedPairs(p, vertexShader, fragmentShader);
    LinkEffect(st, p, vertexShader, fragmentShader, linked);
    var link := LinkCommands(p, vertexShader, fragmentShader, linked);
    var release := if linked then [] else DestructorCommands(p);
    RunAppend(st, link, release);
    var st1 := Run(st, link);
    if linked {
      assert (st.attached + pairs) - pairs == st.attached;
    } else {
      assert Run(st1, release) == Step(st1, DeleteProgram(p));
      assert (set a | a in st.attached + pairs && a.0 != p) == st.attached;
    }
  }

  /** The destructor deletes the driver program exactly when one was created. */
  lemma DestructorEffect(st: DriverState, p: nat)
    ensures p != 0 ==> Run(st, DestructorCommands(p)).programs == st.programs - {p}
    ensures p == 0 ==> Run(st, DestructorCommands(p)) == st
  {
    if p != 0 {
      assert Run(st, DestructorCommands(p)) == Step(st, DeleteProgram(p));
    }
  }

  /** A stage that fails to compile is deleted; one that compiles is kept. */
  lemma CompileShaderEffect(st: DriverState, shader: nat, source: string, compiled: bool)
    ensures Run(st, CompileCommands(shader, source, compiled))
      == if compiled then st else st.(shaders := st.shaders - {shader})
  {
    var inert := [ShaderSource(shader, source), CompileShader(shader), GetCompileStatus(shader)];
    RunInert(st, inert);
    RunAppend(st, inert, if compiled then [] else [DeleteShader(shader)]);
  }
}
