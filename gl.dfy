/** The OpenGL ES driver as the shader-program wrapper sees it. Every driver
    call the wrapper makes is one Command appended to the driver's command
    stream; what the driver answers (the name glCreateProgram returns, a link
    or compile status, the location glGetUniformLocation reports) is supplied
    by the caller of the model. Run gives the calls a meaning: which program
    and shader objects exist, which shaders are attached, and what value each
    uniform location holds. */
module Gl {
  import opened Pddi

  /** A uniform location. glGetUniformLocation answers -1 for a name the
      linked program does not declare as an active uniform. */
  type Location = int

  const NoLocation: Location := -1

  predicate Present(loc: Location) {
    loc >= 0
  }

  /** What glGetUniformLocation answers, given the active uniforms of the
      linked program and their locations. */
  function Resolve(directory: map<string, nat>, name: string): Location {
    if name in directory then directory[name] else NoLocation
  }

  /** Distinct active uniforms have distinct locations. */
  predicate Injective(directory: map<string, nat>) {
    forall a, b :: a in directory && b in directory && a != b ==> directory[a] != directory[b]
  }

  /** The payload of a uniform upload; the variant names the entry point. */
  datatype Value =
    | Int1(i: int)                        // glUniform1i
    | Float1(f: real)                     // glUniform1f
    | Float3(x: real, y: real, z: real)   // glUniform3f
    | Float4(v: Vec4)                     // glUniform4fv with count 1
    | Colour4(c: Colour)                  // glUniform4f of the four channels, each scaled by 1/255
    | Matrix4(m: Matrix)                  // glUniformMatrix4fv, count 1, not transposed

  datatype Command =
    | CreateProgram(program: nat)                          // glCreateProgram, which returned `program`
    | AttachShader(program: nat, shader: nat)
    | BindAttribLocation(program: nat, index: nat, name: string)
    | LinkProgram(program: nat)
    | GetLinkStatus(program: nat)                          // glGetProgramiv(GL_LINK_STATUS)
    | GetUniformLocation(program: nat, name: string)
    | DetachShader(program: nat, shader: nat)
    | DeleteProgram(program: nat)
    | ShaderSource(shader: nat, source: string)
    | CompileShader(shader: nat)
    | GetCompileStatus(shader: nat)                        // glGetShaderiv(GL_COMPILE_STATUS)
    | DeleteShader(shader: nat)
    | Uniform(location: Location, value: Value)            // an upload to the program in use

  /** The driver objects and the uniform storage of the program in use. */
  datatype DriverState = DriverState(
    programs: set<nat>,
    attached: set<(nat, nat)>,
    shaders: set<nat>,
    uniforms: map<Location, Value>)

  /** The effect of one call. Deleting a program detaches its shaders; an
      upload to location -1 is silently ignored. */
  function Step(st: DriverState, c: Command): DriverState {
    match c
    case CreateProgram(p) => if p != 0 then st.(programs := st.programs + {p}) else st
    case AttachShader(p, s) => st.(attached := st.attached + {(p, s)})
    case DetachShader(p, s) => st.(attached := st.attached - {(p, s)})
    case DeleteProgram(p) =>
      st.(programs := st.programs - {p}, attached := set a | a in st.attached && a.0 != p)
    case DeleteShader(s) => st.(shaders := st.shaders - {s})
    case Uniform(loc, v) => if Present(loc) then st.(uniforms := st.uniforms[loc := v]) else st
    case _ => st
  }

  function Run(st: DriverState, t: seq<Command>): DriverState
    decreases |t|
  {
    if t == [] then st else Run(Step(st, t[0]), t[1..])
  }

  lemma {:induction false} RunAppend(st: DriverState, a: seq<Command>, b: seq<Command>)
    ensures Run(st, a + b) == Run(Run(st, a), b)
    decreases |a|
  {
    if a == [] {
      assert a + b == b;
    } else {
      assert (a + b)[0] == a[0];
      assert (a + b)[1..] == a[1..] + b;
      RunAppend(Step(st, a[0]), a[1..], b);
    }
  }

  /** Calls that change none of the modelled driver state: queries, attribute
      bindings (they take effect at the next link), linking and compiling. */
  predicate Inert(c: Command) {
    c.BindAttribLocation? || c.LinkProgram? || c.GetLinkStatus? || c.GetUniformLocation?
    || c.ShaderSource? || c.CompileShader? || c.GetCompileStatus?
  }

  lemma {:induction false} RunInert(st: DriverState, t: seq<Command>)
    requires forall i :: 0 <= i < |t| ==> Inert(t[i])
    ensures Run(st, t) == st
    decreases |t|
  {
    if t != [] {
      assert Inert(t[0]);
      RunInert(st, t[1..]);
    }
  }

  /** A stream made of uniform uploads only. */
  predicate Uploads(t: seq<Command>) {
    forall i :: 0 <= i < |t| ==> t[i].Uniform?
  }

  /** No present location is uploaded twice. */
  predicate DistinctTargets(t: seq<Command>)
    requires Uploads(t)
  {
    forall i, j :: 0 <= i < j < |t| && Present(t[i].location) ==> t[i].location != t[j].location
  }

  /** The present locations a stream of uploads writes. */
  function Targets(t: seq<Command>): set<Location>
    requires Uploads(t)
  {
    set i | 0 <= i < |t| && Present(t[i].location) :: t[i].location
  }

  /** Location `loc` holds `v`, or is absent and holds nothing that matters. */
  predicate Holds(st: DriverState, loc: Location, v: Value) {
    Present(loc) ==> loc in st.uniforms && st.uniforms[loc] == v
  }

  /** `st'` differs from `st` at most in the uniforms at `locs`. */
  predicate OnlyUniformsChanged(st: DriverState, st': DriverState, locs: set<Location>) {
    st'.programs == st.programs && st'.attached == st.attached && st'.shaders == st.shaders
    && st'.uniforms - locs == st.uniforms - locs
  }

  /** A stream of uploads to distinct locations leaves each present location
      holding the value uploaded to it, and changes nothing else. */
  lemma {:induction false} RunUploads(st: DriverState, t: seq<Command>)
    requires Uploads(t) && DistinctTargets(t)
    ensures OnlyUniformsChanged(st, Run(st, t), Targets(t))
    ensures forall i :: 0 <= i < |t| ==> Holds(Run(st, t), t[i].location, t[i].value)
    decreases |t|
  {
    if t != [] {
      var c, rest := t[0], t[1..];
      var st1 := Step(st, c);
      assert Uploads(rest) by {
        forall i | 0 <= i < |rest| ensures rest[i].Uniform? { assert rest[i] == t[i + 1]; }
      }
      assert DistinctTargets(rest) by {
        forall i, j | 0 <= i < j < |rest| && Present(rest[i].location)
          ensures rest[i].location != rest[j].location
        {
          assert rest[i] == t[i + 1] && rest[j] == t[j + 1];
        }
      }
      RunUploads(st1, rest);
      var r := Run(st, t);
      assert r == Run(st1, rest);
      assert Targets(t) == Targets(rest) + (if Present(c.location) then {c.location} else {}) by {
        forall loc | loc in Targets(t) ensures loc in Targets(rest) || (Present(c.location) && loc == c.location) {
          var i :| 0 <= i < |t| && Present(t[i].location) && t[i].location == loc;
          if i > 0 { assert rest[i - 1] == t[i]; }
        }
        forall loc | loc in Targets(rest) ensures loc in Targets(t) {
          var i :| 0 <= i < |rest| && Present(rest[i].location) && rest[i].location == loc;
          assert t[i + 1] == rest[i];
        }
      }
      if Present(c.location) {
        assert c.location !in Targets(rest);
        assert c.location in r.uniforms - Targets(rest);
        assert (st1.uniforms - Targets(rest))[c.location] == c.value;
      }
      var T := Targets(t);
      assert r.uniforms - T == st.uniforms - T by {
        forall loc | loc !in T
          ensures (loc in r.uniforms) == (loc in st.uniforms)
          ensures loc in st.uniforms ==> r.uniforms[loc] == st.uniforms[loc]
        {
          assert loc !in Targets(rest);
          assert (loc in r.uniforms - Targets(rest)) == (loc in st1.uniforms - Targets(rest));
        }
      }
      forall i | 0 <= i < |t| ensures Holds(r, t[i].location, t[i].value) {
        if i > 0 { assert t[i] == rest[i - 1]; }
      }
    }
  }

  /** The present locations among `locs`: the only ones an upload can write. */
  function PresentOnly(locs: set<Location>): set<Location> {
    set loc | loc in locs && Present(loc)
  }

  /** No present location occurs twice in `locs`. */
  predicate DistinctPresent(locs: seq<Location>) {
    forall i, j :: 0 <= i < j < |locs| && Present(locs[i]) ==> locs[i] != locs[j]
  }

  /** Distinct names of a directory that gives distinct uniforms distinct
      locations resolve to distinct locations. */
  lemma ResolveDistinct(directory: map<string, nat>, names: seq<string>)
    requires Injective(directory)
    requires forall i, j :: 0 <= i < j < |names| ==> names[i] != names[j]
    ensures DistinctPresent(seq(|names|, k requires 0 <= k < |names| => Resolve(directory, names[k])))
  {
  }

  /** A frame stated for some locations holds for any larger set. */
  lemma WidenFrame(st: DriverState, st': DriverState, locs: set<Location>, wider: set<Location>)
    requires OnlyUniformsChanged(st, st', locs) && locs <= wider
    ensures OnlyUniformsChanged(st, st', wider)
  {
    assert st'.uniforms - wider == (st'.uniforms - locs) - wider;
    assert st.uniforms - wider == (st.uniforms - locs) - wider;
  }

  /** The driver's command stream, in the order the calls were made. */
  class Driver {
    var trace: seq<Command>

    constructor ()
      ensures trace == []
    {
      trace := [];
    }

    method Issue(c: Command)
      modifies this
      ensures trace == old(trace) + [c]
    {
      trace := trace + [c];
    }

    /** glGetUniformLocation, answered from the linked program's directory. */
    method QueryUniformLocation(program: nat, directory: map<string, nat>, name: string) returns (loc: Location)
      modifies this
      ensures loc == Resolve(directory, name)
      ensures trace == old(trace) + [GetUniformLocation(program, name)]
    {
      trace := trace + [GetUniformLocation(program, name)];
      loc := Resolve(directory, name);
    }
  }
}
