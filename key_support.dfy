/** `KeySupportChooser.kt`: which key store back end serves a request. */
module KeySupports {
  import opened Wrappers
  import opened JvmTypes
  import opened AuthData

  /** Android 6.0, `Build.VERSION_CODES.M`. */
  const SDK_M: int := 23

  datatype KeySupportKind = DefaultKeySupport | LegacyKeySupport

  datatype KeySupport = KeySupport(kind: KeySupportKind, alg: Int32)

  /** The loop of `chooseInternal`/`chooseLegacyInternal`: the first algorithm that is es256. */
  function FirstSupported(algs: seq<Int32>): Option<Int32>
    decreases |algs|
  {
    if algs == [] then None
    else if algs[0] == ES256 then Some(algs[0])
    else FirstSupported(algs[1..])
  }

  /** The search finds es256 iff it is requested; every other algorithm, rs256 included, is skipped. */
  lemma {:induction false} FirstSupportedIsES256(algs: seq<Int32>)
    ensures FirstSupported(algs).Some? <==> ES256 in algs
    ensures FirstSupported(algs).Some? ==> FirstSupported(algs).value == ES256
    decreases |algs|
  {
    if algs != [] && algs[0] != ES256 {
      FirstSupportedIsES256(algs[1..]);
      assert algs == [algs[0]] + algs[1..];
    }
  }

  /** `choose(algorithms)`: the search, with the back end the platform version selects. */
  function Chosen(sdk: int, algs: seq<Int32>): Option<KeySupport>
  {
    match FirstSupported(algs)
    case None => None
    case Some(alg) => Some(KeySupport(if sdk >= SDK_M then DefaultKeySupport else LegacyKeySupport, alg))
  }

  /** `choose` answers iff es256 is requested, always with es256, from the default back end from Android 6.0 on. */
  lemma ChosenProperties(sdk: int, algs: seq<Int32>)
    ensures Chosen(sdk, algs).Some? <==> ES256 in algs
    ensures Chosen(sdk, algs).Some? ==> Chosen(sdk, algs).value.alg == ES256
    ensures Chosen(sdk, algs).Some? ==> (Chosen(sdk, algs).value.kind == DefaultKeySupport <==> sdk >= SDK_M)
    ensures Chosen(sdk, [RS256]).None?
  {
    FirstSupportedIsES256(algs);
    FirstSupportedIsES256([RS256]);
  }

  /** `choose(algorithms)` as the source runs it: a loop that returns at the first es256. */
  method Choose(sdk: int, algorithms: seq<Int32>) returns (r: Option<KeySupport>)
    ensures r == Chosen(sdk, algorithms)
  {
    var kind := if sdk >= SDK_M then DefaultKeySupport else LegacyKeySupport;
    for i := 0 to |algorithms|
      invariant FirstSupported(algorithms) == FirstSupported(algorithms[i..])
    {
      assert algorithms[i..][1..] == algorithms[i + 1..];
      if algorithms[i] == ES256 {
        return Some(KeySupport(kind, algorithms[i]));
      }
    }
    return None;
  }
}
