/**
 * The global environment the API key is read from, and the start-up shim of index.tsx
 * that makes sure `window.process.env` exists and copies the first key it finds into
 * `process.env.API_KEY` and `window.API_KEY`.
 *
 * In the browser `process` is `window.process`, so the model keeps one `process` value.
 * `import.meta.env.VITE_API_KEY` is fixed at build time and is a constant here.
 */
module Environment {
  import opened Wrappers
  import opened Strings

  /** `process.env`, as far as the application reads it. */
  datatype ProcessEnv = ProcessEnv(apiKey: Option<string>, viteKey: Option<string>)

  /** `window.process`, whose `env` may be missing. */
  datatype Process = Process(env: Option<ProcessEnv>)

  /** A snapshot of every place a key can be injected. */
  datatype Env = Env(
    process: Option<Process>,        // window.process
    windowApiKey: Option<string>,    // window.API_KEY
    windowViteKey: Option<string>,   // window.VITE_API_KEY
    metaViteKey: Option<string>)     // import.meta.env.VITE_API_KEY

  /** `process?.env?.API_KEY` */
  function ProcessApiKey(e: Env): Option<string> {
    if e.process.Some? && e.process.value.env.Some? then e.process.value.env.value.apiKey else None
  }

  /** `process?.env?.VITE_API_KEY` */
  function ProcessViteKey(e: Env): Option<string> {
    if e.process.Some? && e.process.value.env.Some? then e.process.value.env.value.viteKey else None
  }

  /** The order in which the shim looks for a key. */
  function ShimSources(e: Env): seq<Option<string>> {
    [e.metaViteKey, e.windowViteKey, e.windowApiKey, ProcessApiKey(e), ProcessViteKey(e)]
  }

  /** `viteKey || windowKey || processKey`, with `windowKey` and `processKey` as the shim groups them. */
  function DetectedKey(e: Env): Option<string> {
    Or(Or(e.metaViteKey, Or(e.windowViteKey, e.windowApiKey)), Or(ProcessApiKey(e), ProcessViteKey(e)))
  }

  /**
   * The shim's key is the first truthy of import.meta.env.VITE_API_KEY, window.VITE_API_KEY,
   * window.API_KEY, process.env.API_KEY and process.env.VITE_API_KEY.
   */
  lemma DetectedKeyIsFirstTruthy(e: Env)
    ensures Truthy(DetectedKey(e)) ==> DetectedKey(e) == FirstTruthy(ShimSources(e))
    ensures !Truthy(DetectedKey(e)) <==> FirstTruthy(ShimSources(e)).None?
  {
    var cs := ShimSources(e);
    var c1, c2, c3, c4 := cs[1..], cs[2..], cs[3..], cs[4..];
    assert c1[1..] == c2 && c2[1..] == c3 && c3[1..] == c4 && c4[1..] == [];
    assert FirstTruthy(cs) == if Truthy(cs[0]) then cs[0] else FirstTruthy(c1);
    assert FirstTruthy(c1) == if Truthy(cs[1]) then cs[1] else FirstTruthy(c2);
    assert FirstTruthy(c2) == if Truthy(cs[2]) then cs[2] else FirstTruthy(c3);
    assert FirstTruthy(c3) == if Truthy(cs[3]) then cs[3] else FirstTruthy(c4);
  }

  /**
   * What running the shim on `before` leaves in `after`: `process` and `process.env` exist,
   * an existing `env` keeps its entries, and a detected key is written to
   * `process.env.API_KEY` and `window.API_KEY`; without one no key is written.
   */
  predicate ShimmedFrom(before: Env, after: Env) {
    var d := DetectedKey(before);
    && after.process.Some? && after.process.value.env.Some?
    && ProcessViteKey(after) == ProcessViteKey(before)
    && ProcessApiKey(after) == (if Truthy(d) then d else ProcessApiKey(before))
    && after.windowApiKey == (if Truthy(d) then d else before.windowApiKey)
    && after.windowViteKey == before.windowViteKey
    && after.metaViteKey == before.metaViteKey
  }

  /** Running the shim a second time changes nothing. */
  lemma ShimTwiceIsShimOnce(a: Env, b: Env, c: Env)
    requires ShimmedFrom(a, b) && ShimmedFrom(b, c)
    ensures c == b
  {
    assert Truthy(DetectedKey(a)) ==> DetectedKey(b) == DetectedKey(a);
  }

  /** The browser's global object, as the shim sees and changes it. */
  class Window {
    var process: Option<Process>
    var apiKey: Option<string>
    var viteKey: Option<string>
    const metaViteKey: Option<string>

    function Snapshot(): Env
      reads this
    {
      Env(process, apiKey, viteKey, metaViteKey)
    }

    constructor (e: Env)
      ensures Snapshot() == e
    {
      process := e.process;
      apiKey := e.windowApiKey;
      viteKey := e.windowViteKey;
      metaViteKey := e.metaViteKey;
    }

    /** `initEnvironment()` */
    method InitEnvironment()
      modifies this
      ensures ShimmedFrom(old(Snapshot()), Snapshot())
    {
      // 1. Ensure the process object and its env exist.
      if process.None? {
        process := Some(Process(Some(ProcessEnv(None, None))));
      } else if process.value.env.None? {
        process := Some(process.value.(env := Some(ProcessEnv(None, None))));
      }
      // 2. Look for a key.
      var env := process.value.env.value;
      var fromMeta := metaViteKey;
      var fromWindow := Or(viteKey, apiKey);
      var fromProcess := Or(env.apiKey, env.viteKey);
      var detected := Or(Or(fromMeta, fromWindow), fromProcess);
      // 3. Propagate it.
      if Truthy(detected) {
        process := Some(Process(Some(env.(apiKey := detected))));
        apiKey := detected;
      }
    }
  }
}
