# pglProgram: the OpenGL ES shader-program wrapper

This project models `pglProgram`, the shader-program object of the OpenGL ES
backend of the pure3d rendering layer (`libs/pure3d/pddi/gles/glprog.cpp`), and
proves what its calls do.

A `pglProgram` owns a GL program name, initially 0, and a table of uniform
locations. A location of -1 means the linked shader does not declare that
uniform. It also keeps four locations per hardware light. Its setters turn a
transform, a texture environment or a light into uniform uploads. Its
compile/link/create lifecycle releases the object again when linking fails.

The GL driver is abstract (`gl.dfy`, module `Gl`):

- Every GL call is a `Command` value appended to the command stream of a
  `Driver` object.
- What the driver answers is supplied by the caller of the model: the name
  `glCreateProgram` returns, the link and compile status, and the active
  uniforms of the linked program with their locations (a `map<string, nat>`;
  a name that is absent resolves to -1).
- `Run` gives the stream a meaning, as a driver state: the existing programs
  and shader objects, which shaders are attached to which program, and the
  value held at each uniform location. Uploads to -1 are ignored, as GL
  specifies. Deleting a program also detaches its shaders.

Module `GlProgram` (`glprog.dfy`) holds the class `Program`. Its fields are
those of `pglProgram`:

- the GL name;
- eleven scalar locations;
- a fixed-size `lights` array;
- the reference count of the engine's object base class.

For each operation a pure function gives the exact command sequence. The
method's postcondition says it appends exactly that sequence to the stream,
plus its new field values. Module `GlProgramProperties`
(`glprog_properties.dfy`) proves what the sequences do to the driver state,
their order, the uniform naming scheme and the object lifecycle. Module `Pddi`
(`pddi.dfy`) holds the engine value types that the wrapper reads.

The program object keeps no cache of last-uploaded values: every
setter call uploads again. Redundant-upload suppression is therefore not part
of this object.

## Model

| member | source | states |
|---|---|---|
| `GlProgram.UniformColour` | libs/pure3d/pddi/gles/glprog.cpp:13-16 | one unguarded colour upload to `loc`, the /255 scale being the `Colour4` payload |
| `GlProgram.Program.constructor` | libs/pure3d/pddi/gles/glprog.cpp:18-22 | a new program has GL name 0, reference count 0, and every location (including `projection`, `modelview`, `normalmatrix`, `alpharef`, `sampler`, `acs`) at -1 |
| `GlProgram.Program.Destroy` | libs/pure3d/pddi/gles/glprog.cpp:24-28 | the destructor issues `glDeleteProgram` for the program's name when it is nonzero and nothing otherwise |
| `GlProgramProperties.DestructorEffect` | libs/pure3d/pddi/gles/glprog.cpp:24-28 | the destructor removes a nonzero program from the driver's programs and leaves the driver untouched for name 0 |
| `GlProgram.Program.AddRef` | libs/pure3d/pddi/gles/glprog.cpp:200 | taking a reference raises the count by one and changes nothing else |
| `GlProgram.Program.Release` | libs/pure3d/pddi/gles/glprog.cpp:203 | dropping a reference lowers the count by one; the drop to zero runs the destructor, any other drop issues nothing |
| `GlProgram.Program.SetProjectionMatrix` | libs/pure3d/pddi/gles/glprog.cpp:30-34 | appends exactly one matrix upload to `projection` when it is present and nothing otherwise |
| `GlProgramProperties.ProjectionMatrixEffect` | libs/pure3d/pddi/gles/glprog.cpp:30-34 | afterwards the projection uniform holds the matrix; no other uniform or driver object changes, and nothing at all changes when the uniform is absent (the frame holds only present locations) |
| `GlProgram.Program.SetModelViewMatrix` | libs/pure3d/pddi/gles/glprog.cpp:36-47 | appends the matrix upload to `modelview` if present, then, independently, the upload of its inverse-transpose to `normalmatrix` if present |
| `GlProgramProperties.ModelViewMatrixEffect` | libs/pure3d/pddi/gles/glprog.cpp:36-47 | for distinct locations, afterwards `modelview` holds the matrix and `normalmatrix` its inverse-transpose, each when declared; only declared ones among the two may change, so with neither declared the driver state is unchanged |
| `GlProgram.AlphaRefCommands` | libs/pure3d/pddi/gles/glprog.cpp:63-68 | the alpha reference is uploaded (once) iff alpha testing is on and `alpharef` is present, and the payload is always the reference value, the ternary being redundant inside the guard; reaching the upload requires compare mode greater or greater-or-equal |
| `GlProgram.Program.SetTextureEnvironment` | libs/pure3d/pddi/gles/glprog.cpp:49-69 | appends the sampler upload of unit 0 iff `sampler` is present, then iff the environment is lit the unguarded uploads of ambient, emissive, diffuse, specular colours and shininess to `acm`, `ecm`, `dcm`, `scm`, `srm` in that order, then the alpha-reference upload; asserts the compare mode where glprog.cpp does |
| `GlProgram.Program.IssueMaterial` | libs/pure3d/pddi/gles/glprog.cpp:54-61 | for a lit environment, appends the five material uploads to `acm`, `ecm`, `dcm`, `scm`, `srm` in that order, none of them guarded by a location check |
| `GlProgramProperties.TextureEnvEffect` | libs/pure3d/pddi/gles/glprog.cpp:49-69 | for distinct present locations, afterwards the sampler holds 0, a lit environment's colours and shininess sit in their uniforms, alpha testing leaves the reference in `alpharef`; only the declared ones among the uniforms written may change, and no driver object changes |
| `GlProgramProperties.MaterialUploadsToAbsentUniforms` | libs/pure3d/pddi/gles/glprog.cpp:54-61 | the material uploads are issued without a location check, but when none of those uniforms is declared they leave the driver state unchanged |
| `GlProgram.LightVector` | libs/pure3d/pddi/gles/glprog.cpp:76-96 | w is 0 for a directional light and 1 for a point light; negating xyz gives back a directional light's world direction, and xyz is a point light's world position |
| `GlProgramProperties.LightKindFromVector` | libs/pure3d/pddi/gles/glprog.cpp:76-91 | decoding the kind from the light vector's w component gives back the light's kind |
| `GlProgram.LightStateCommands` | libs/pure3d/pddi/gles/glprog.cpp:71-102 | no commands iff the index is outside the lights array; otherwise exactly four uploads, in the order enabled, position, colour, attenuation, to that light's locations |
| `GlProgram.Program.SetLightState` | libs/pure3d/pddi/gles/glprog.cpp:71-102 | fills the local four-component vector by light kind (spot is excluded, as glprog.cpp asserts), then appends exactly the uploads of `LightStateCommands` |
| `GlProgramProperties.LightStateEffect` | libs/pure3d/pddi/gles/glprog.cpp:98-101 | an out-of-range index changes nothing. Otherwise, for distinct locations, the light's uniforms hold 1 or 0 for enabled, the light vector, the colour and the three attenuation coefficients; only the declared ones among those four uniforms may change |
| `GlProgramProperties.LightStateStaysInBounds` | libs/pure3d/pddi/gles/glprog.cpp:73-101 | every command issued is an upload to one of the chosen light's four locations, and commands are issued only for an index inside the array |
| `GlProgramProperties.NegativeHandlePassesSourceGuard` | libs/pure3d/pddi/gles/glprog.cpp:73-74 | index -1 is not rejected by the original guard, yet lies outside the lights array |
| `GlProgram.Program.SetAmbientLight` | libs/pure3d/pddi/gles/glprog.cpp:104-107 | appends one colour upload to `acs`, with no location check |
| `GlProgramProperties.AmbientLightEffect` | libs/pure3d/pddi/gles/glprog.cpp:104-107 | afterwards `acs` holds the colour when declared; nothing else changes, and nothing at all when `acs` is absent |
| `GlProgram.Program.LinkProgram` | libs/pure3d/pddi/gles/glprog.cpp:109-170 | records the created name and appends the link sequence. On failure it returns false, with every location as before. On success it returns true, with each location resolved by its name, and each light's by its `lights[i].` names |
| `GlProgram.Program.IssueLinkPreamble` | libs/pure3d/pddi/gles/glprog.cpp:111-126 | issues creation, attachment of the nonzero stages, the four attribute bindings, the link and the status query, in that order |
| `GlProgram.Program.IssueAttachments` | libs/pure3d/pddi/gles/glprog.cpp:113-116 | attaches the vertex stage then the fragment stage, each only when nonzero |
| `GlProgram.Program.ResolveUniforms` | libs/pure3d/pddi/gles/glprog.cpp:140-160 | issues every location lookup of a successful link in order and leaves the table and the lights array equal to the resolution of the directory |
| `GlProgram.Program.ResolveScalarsBeforeLights` | libs/pure3d/pddi/gles/glprog.cpp:140-144 | looks up projection, modelview, normalmatrix, alpharef and tex, in that order, into their fields |
| `GlProgram.Program.ResolveLights` | libs/pure3d/pddi/gles/glprog.cpp:146-153 | the loop looks up the four `lights[i].` names of every light in order and fills each array slot with their locations |
| `GlProgram.Program.ResolveScalarsAfterLights` | libs/pure3d/pddi/gles/glprog.cpp:155-160 | looks up acs, acm, dcm, scm, ecm and srm, in that order, into their fields |
| `GlProgram.Program.IssueDetachments` | libs/pure3d/pddi/gles/glprog.cpp:162-168 | detaches the vertex stage then the fragment stage, each only when nonzero |
| `GlProgramProperties.LinkOrder` | libs/pure3d/pddi/gles/glprog.cpp:111-168 | the sequence opens with creation; attachments and bindings all come before the one link call. The bindings are exactly position=0, normal=1, texcoord=2, color=3. Lookups and detachments come only after the link, and only if it succeeded |
| `GlProgramProperties.LightLookupsAreLookups` | libs/pure3d/pddi/gles/glprog.cpp:146-153 | the light loop issues exactly four location queries per light, all for this program |
| `GlProgramProperties.LookupCommandsAreLookups` | libs/pure3d/pddi/gles/glprog.cpp:140-160 | every call of the resolution phase is a location query for this program |
| `GlProgram.DigitChar` | libs/pure3d/pddi/gles/glprog.cpp:148 | the character `'0' + i` truncated to 8 bits; for i below 10 it is the i-th decimal digit |
| `GlProgram.LightPrefix` | libs/pure3d/pddi/gles/glprog.cpp:148 | the prefix of light i: `lights[`, the digit truncated to 8 bits, then `].` |
| `GlProgramProperties.LightPrefixIsDecimal` | libs/pure3d/pddi/gles/glprog.cpp:148 | the prefix built from one digit character is the GLSL array-element name exactly when the index is below 10 |
| `GlProgramProperties.LightPrefixesAreDecimal` | libs/pure3d/pddi/gles/glprog.cpp:146-148 | every light the loop resolves, up to the maximum light count, gets its GLSL element name |
| `GlProgramProperties.LightNameInjective` | libs/pure3d/pddi/gles/glprog.cpp:148-152 | below the 8-bit wrap of the digit character, two light uniform names are equal iff they agree on light and field |
| `GlProgramProperties.LinkedLocationsDistinct` | libs/pure3d/pddi/gles/glprog.cpp:140-160 | when distinct active uniforms have distinct locations, the locations each setter writes after a link are distinct, so the effect lemmas apply to a linked program |
| `GlProgramProperties.LinkEffect` | libs/pure3d/pddi/gles/glprog.cpp:109-170 | linking adds the created program and attaches the nonzero stages; a successful link detaches them again; uniforms and shader objects are untouched |
| `GlProgram.Program.CompileShader` | libs/pure3d/pddi/gles/glprog.cpp:172-195 | issues source, compile and status query; on failure it also deletes the shader and returns false, on success it returns true without deleting |
| `GlProgramProperties.CompileShaderEffect` | libs/pure3d/pddi/gles/glprog.cpp:172-195 | a stage that fails to compile no longer exists afterwards; a compiled stage leaves the driver state unchanged |
| `GlProgram.Program.CreateProgram` | libs/pure3d/pddi/gles/glprog.cpp:197-207 | on a successful link returns a fresh program with reference count 1 and resolved locations. On failure it returns null, after releasing the only reference, so the destructor deletes the GL program |
| `GlProgramProperties.CreateProgramResources` | libs/pure3d/pddi/gles/glprog.cpp:197-207 | a failed creation leaves no GL program behind and a successful one leaves exactly the new one; in both cases no stage stays attached and no uniform or shader object changes |

## Left out

- `libs/pure3d/pddi/gles/glcon.hpp`: the context and primitive-buffer classes are only declared there; their method bodies are not part of this model, so the frame bracketing, state setters and lock protocol are not modelled.
- `code/meta/locatorevents.h` (an enumeration with a name table) and `code/render/Culling/CullData.cpp` (a static singleton accessor): no behaviour to model.
- Floating point: float payloads are mathematical reals that are passed through or negated. The colour conversion to [0, 1] (divide by 255) is the `Colour4` payload, not a computation. The normal matrix is the symbolic `InverseTransposeOf` of the model-view matrix, not an inversion.
- Info-log length and text retrieval, and `SDL_Log`, on compile or link failure: only the boolean outcome and the shader deletion are modelled.
- The `RAD_VITAGL` build, which skips detaching the stages: only the default build is modelled.
- The driver: uniform uploads act on one uniform store, that of the program in use, since binding a program is not part of this object. GL error states for invalid names are not modelled.
- Reference counting comes from an engine base class that is not part of this model. It is a plain counter. At zero the destructor's commands are issued, but the Dafny object itself is not freed.
- `GlProgram.Program.constructor`: glprog.cpp leaves `acm`, `dcm`, `scm`, `ecm`, `srm` and the `lights` array uninitialised. The model sets them to -1. Nothing reads them before a successful link, because a failed link releases the object.
- `PDDI_MAX_LIGHTS` is defined outside the modelled files. The model takes 8. The naming lemma states, for any index, that the scheme is right exactly below 10.
- `GlProgram.Program.SetLightState`: a spot light at an accepted index is excluded by a precondition, matching the assertion in glprog.cpp. So is an alpha compare mode other than greater or greater-or-equal in `GlProgram.Program.SetTextureEnvironment`. Release builds, where these assertions vanish, are not modelled.
- `GlProgramProperties.CreateProgramResources`: assumes `glCreateProgram` returned a nonzero name that is not yet in use, with nothing attached to it. The failure case of `glCreateProgram` (name 0) is not covered by this lemma.
- `GlProgramProperties.TextureEnvEffect`, `GlProgramProperties.ModelViewMatrixEffect`, `GlProgramProperties.LightStateEffect`: stated for distinct present locations. `GlProgramProperties.LinkedLocationsDistinct` shows that a successful link gives exactly that, when the driver gives distinct active uniforms distinct locations.

## Findings

| source | as written | input that shows it | evidently intended | confidence | as-written member | corrected member |
|---|---|---|---|---|---|---|
| libs/pure3d/pddi/gles/glprog.cpp:73-74 | `SetLightState` returns early only for `handle >= PDDI_MAX_LIGHTS`, then indexes `lights[handle]` | `handle = -1` passes the guard and reads `lights[-1]`, outside the array | indices outside 0 .. `PDDI_MAX_LIGHTS`-1 are a no-op | low: callers pass light indices counted from 0; not executed | `GlProgramProperties.NegativeHandlePassesSourceGuard` | `GlProgramProperties.LightStateStaysInBounds` |
