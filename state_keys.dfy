/** The keys of the power supply's state dictionary. The source indexes the
    dictionary with ten fixed string literals; each is one constructor here,
    and Text gives the literal. */
module StateKeys {

  datatype Key =
    | C1CCCV | C2CCCV | Track | Beep | Output | BaudRate
    | Mfr | Model | SN | FWVer

  /** The dictionary key as the source spells it. */
  function Text(k: Key): (s: string)
    ensures |s| >= 2
  {
    match k
    case C1CCCV => "C1CCCV"
    case C2CCCV => "C2CCCV"
    case Track => "Track"
    case Beep => "Beep"
    case Output => "Output"
    case BaudRate => "BaudRate"
    case Mfr => "Mfr."
    case Model => "Model"
    case SN => "SN"
    case FWVer => "FWVer"
  }

  /** The six keys a complete status decode writes. */
  const StatusKeys: set<Key> := {C1CCCV, C2CCCV, Track, Beep, Output, BaudRate}

  /** The four keys an identity decode writes. */
  const IdentityKeys: set<Key> := {Mfr, Model, SN, FWVer}

  /** Distinct keys are distinct strings, so the enumeration loses nothing. */
  lemma TextInjective(a: Key, b: Key)
    ensures Text(a) == Text(b) <==> a == b
  {
    if a != b {
      assert Text(a) != Text(b) by {
        if |Text(a)| == |Text(b)| {
          assert Text(a)[1] != Text(b)[1] || Text(a)[0] != Text(b)[0];
        }
      }
    }
  }

  /** The status and identity decodes write disjoint sets of keys. */
  lemma StatusIdentityDisjoint()
    ensures StatusKeys !! IdentityKeys
  {
  }
}
