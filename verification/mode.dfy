/** The process-wide mode flags of `Config` and the scoped override
    `using_config`, with its two uses `no_grad` and `test_mode`. The flags are
    passed around explicitly as a value instead of living in a class. */
module Mode {
  import opened Wrappers
  import opened Errors

  /** The two flags `Config` declares. */
  datatype Config = Config(enableBackprop: bool, train: bool)

  /** The flags as the source starts with them: both on. */
  const Default := Config(enableBackprop := true, train := true)

  datatype Flag = EnableBackprop | Train

  /** `getattr(Config, name)` succeeds for exactly the two declared names. */
  function Lookup(name: string): (r: Option<Flag>)
    ensures r == Some(EnableBackprop) <==> name == "enable_backprop"
    ensures r == Some(Train) <==> name == "train"
    ensures r.None? <==> name != "enable_backprop" && name != "train"
  {
    if name == "enable_backprop" then Some(EnableBackprop)
    else if name == "train" then Some(Train)
    else None
  }

  function Get(c: Config, f: Flag): bool {
    match f
    case EnableBackprop => c.enableBackprop
    case Train => c.train
  }

  function Other(f: Flag): (r: Flag)
    ensures r != f
  {
    match f
    case EnableBackprop => Train
    case Train => EnableBackprop
  }

  /** `setattr(Config, name, value)`: the flag reads `value` afterwards and
      the other flag keeps its value. */
  function Set(c: Config, f: Flag, value: bool): (r: Config)
    ensures Get(r, f) == value
    ensures Get(r, Other(f)) == Get(c, Other(f))
  {
    match f
    case EnableBackprop => c.(enableBackprop := value)
    case Train => c.(train := value)
  }

  /** A flag and its other flag determine a configuration. */
  lemma {:induction false} SameFlagsSameConfig(a: Config, b: Config, f: Flag)
    requires Get(a, f) == Get(b, f) && Get(a, Other(f)) == Get(b, Other(f))
    ensures a == b
  {
    match f
    case EnableBackprop =>
    case Train =>
  }

  /** A scope body: it runs under the configuration it is given, may change
      the configuration itself (an inner scope, say), and returns normally
      or raises. */
  type Body<T> = Config -> (Result<T, Error>, Config)

  /** `with using_config(name, value): body`. An unknown name raises
      AttributeError on entry, before the flag is touched and before the
      body runs. Otherwise the body runs with the flag set to `value`, and
      on the way out the flag is put back to the value it had on entry,
      whether the body returned or raised; the body's own change to the
      other flag stands. */
  function UsingConfig<T>(c: Config, name: string, value: bool, body: Body<T>): (r: (Result<T, Error>, Config))
    ensures Lookup(name).None? ==> r == (Failure(AttributeError), c)
    ensures Lookup(name).Some? ==>
              var f := Lookup(name).value;
              var inside := body(Set(c, f, value));
              && Get(Set(c, f, value), f) == value
              && r.0 == inside.0
              && Get(r.1, f) == Get(c, f)
              && Get(r.1, Other(f)) == Get(inside.1, Other(f))
  {
    match Lookup(name)
    case None => (Failure(AttributeError), c)
    case Some(f) =>
      var saved := Get(c, f);
      var (outcome, after) := body(Set(c, f, value));
      (outcome, Set(after, f, saved))
  }

  /** `no_grad()`: graph construction is off inside, and `enable_backprop`
      has its old value afterwards. */
  function NoGrad<T>(c: Config, body: Body<T>): (r: (Result<T, Error>, Config))
    ensures r.0 == body(c.(enableBackprop := false)).0
    ensures r.1.enableBackprop == c.enableBackprop
    ensures r.1.train == body(c.(enableBackprop := false)).1.train
  {
    UsingConfig(c, "enable_backprop", false, body)
  }

  /** `test_mode()`: `train` is off inside, and has its old value
      afterwards. */
  function TestMode<T>(c: Config, body: Body<T>): (r: (Result<T, Error>, Config))
    ensures r.0 == body(c.(train := false)).0
    ensures r.1.train == c.train
    ensures r.1.enableBackprop == body(c.(train := false)).1.enableBackprop
  {
    UsingConfig(c, "train", false, body)
  }

  /** A scope around a body that leaves the configuration as it found it
      hands back exactly the configuration it was entered with, whatever the
      body returned and whatever value the flag was overridden with. Nested
      scopes therefore restore every flag. */
  lemma {:induction false} ScopeRestoresConfig<T>(c: Config, name: string, value: bool, body: Body<T>)
    requires forall d :: body(d).1 == d
    ensures UsingConfig(c, name, value, body).1 == c
  {
    match Lookup(name)
    case None =>
    case Some(f) =>
      var r := UsingConfig(c, name, value, body);
      assert body(Set(c, f, value)).1 == Set(c, f, value);
      SameFlagsSameConfig(r.1, c, f);
  }
}
