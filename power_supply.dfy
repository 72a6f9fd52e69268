/** The GPD-4303S control panel's device-state dictionary and the two
    operations that fill it from the instrument's replies. The replies are
    parameters: the serial-link queries that fetch them are not modelled. */
module Gpd4303sGui {
  import opened Outcomes
  import opened CommaSplit
  import opened StatusDecode
  import opened IdentityDecode
  import opened StateKeys

  /** Python's truth value of a two-element tuple: a tuple is true exactly
      when its length is not zero, and a pair's length is 2. */
  predicate PairIsTrue<A, B>(pair: (A, B))
  {
    2 > 0
  }

  // The source's if/elif chains, on the values `int` gave for the characters.

  /** `"CV" if d == 1 else "CC"` for a channel's control mode. */
  function ModeWord(d: nat): string
  {
    if d == 1 then "CV" else "CC"
  }

  /** `"ON" if d == 1 else "OFF"` for the beep and the output. */
  function SwitchWord(d: nat): string
  {
    if d == 1 then "ON" else "OFF"
  }

  /** The tracking chain: its third test is the tuple `(hi, lo == (1, 0))`,
      which is `(hi, False)` and therefore true; None would leave the key alone. */
  function TrackWord(hi: nat, lo: nat): Option<string>
  {
    if (hi, lo) == (0, 1) then Some("Independent")
    else if (hi, lo) == (1, 1) then Some("Series")
    else if PairIsTrue((hi, false)) then Some("Parallel")
    else None
  }

  /** The baud-rate chain, with the same always-true third test. */
  function BaudWord(hi: nat, lo: nat): Option<string>
  {
    if (hi, lo) == (0, 0) then Some("115200")
    else if (hi, lo) == (0, 1) then Some("57600")
    else if PairIsTrue((hi, false)) then Some("9600")
    else None
  }

  // On the values of digit characters, each chain gives the meaning of those
  // characters; in particular both pair chains always choose a word.

  lemma ModeWordMeaning(c: char)
    requires IsDigit(c)
    ensures ModeWord(DigitValue(c)) == ChannelMode(c)
  {
  }

  lemma SwitchWordMeaning(c: char)
    requires IsDigit(c)
    ensures SwitchWord(DigitValue(c)) == Switch(c)
  {
  }

  lemma TrackWordMeaning(hi: char, lo: char)
    requires IsDigit(hi) && IsDigit(lo)
    ensures TrackWord(DigitValue(hi), DigitValue(lo)) == Some(TrackMode(hi, lo))
  {
  }

  lemma BaudWordMeaning(hi: char, lo: char)
    requires IsDigit(hi) && IsDigit(lo)
    ensures BaudWord(DigitValue(hi), DigitValue(lo)) == Some(BaudSetting(hi, lo))
  {
  }

  // ReadState one field at a time. `Decoded(base, cur, s, k)` says that the
  // first k characters of `s` were read and the dictionary `cur` is `base`
  // merged with what they decode to; each source write extends k.

  predicate Decoded(base: map<Key, string>, cur: map<Key, string>, s: string, k: nat)
  {
    k <= 8 && k <= |s| && (forall j :: 0 <= j < k ==> Readable(s, j)) &&
    cur == base + WritesBefore(s, k)
  }

  lemma DecodeStart(base: map<Key, string>, s: string)
    ensures Decoded(base, base, s, 0)
  {
  }

  lemma ModeStep(base: map<Key, string>, cur: map<Key, string>, s: string, k: nat, key: Key, d: nat)
    requires k < 2 && IntAt(s, k) == Some(d)
    requires key == if k == 0 then C1CCCV else C2CCCV
    requires Decoded(base, cur, s, k)
    ensures Decoded(base, cur[key := ModeWord(d)], s, k + 1)
  {
    ModeWordMeaning(s[k]);
  }

  lemma SwitchStep(base: map<Key, string>, cur: map<Key, string>, s: string, k: nat, key: Key, d: nat)
    requires 4 <= k < 6 && IntAt(s, k) == Some(d)
    requires key == if k == 4 then Beep else Output
    requires Decoded(base, cur, s, k)
    ensures Decoded(base, cur[key := SwitchWord(d)], s, k + 1)
  {
    SwitchWordMeaning(s[k]);
  }

  /** Reading the first character of a pair completes no key. */
  lemma PairStart(base: map<Key, string>, cur: map<Key, string>, s: string, k: nat)
    requires (k == 2 || k == 6) && IntAt(s, k).Some?
    requires Decoded(base, cur, s, k)
    ensures Decoded(base, cur, s, k + 1)
  {
  }

  lemma TrackStep(base: map<Key, string>, cur: map<Key, string>, s: string, hi: nat, lo: nat)
    requires IntAt(s, 2) == Some(hi) && IntAt(s, 3) == Some(lo)
    requires Decoded(base, cur, s, 3)
    ensures TrackWord(hi, lo).Some?
    ensures Decoded(base, cur[Track := TrackWord(hi, lo).value], s, 4)
  {
    TrackWordMeaning(s[2], s[3]);
  }

  lemma BaudStep(base: map<Key, string>, cur: map<Key, string>, s: string, hi: nat, lo: nat)
    requires IntAt(s, 6) == Some(hi) && IntAt(s, 7) == Some(lo)
    requires Decoded(base, cur, s, 7)
    ensures BaudWord(hi, lo).Some?
    ensures Decoded(base, cur[BaudRate := BaudWord(hi, lo).value], s, 8)
  {
    BaudWordMeaning(s[6], s[7]);
  }

  /** Decoding ends at k when characters 0..k-1 read and character k does
      not (or k is 8): the dictionary then holds everything the decode writes. */
  lemma DecodeEnd(base: map<Key, string>, cur: map<Key, string>, s: string, k: nat)
    requires Decoded(base, cur, s, k)
    requires k < 8 ==> IntAt(s, k).None?
    ensures cur == base + StatusWrites(s)
    ensures k < 8 ==> StatusFault(s) == Some(FaultAt(s, k))
    ensures k == 8 ==> StatusFault(s) == None && StatusKeys <= cur.Keys
    ensures forall key :: key in base && key !in StatusKeys ==> key in cur && cur[key] == base[key]
  {
    StopsAt(s, k);
  }

  class PowerSupply {
    /** Decoded status and identity words, keyed as the display table reads them. */
    var PSstate: map<Key, string>

    /** The dictionary starts empty; the instrument fills it. */
    constructor ()
      ensures PSstate == map[]
    {
      PSstate := map[];
    }

    /** Start-up: read the status, then the identity. An exception in the
        first read stops start-up before the second. */
    method Startup(statusReply: string, idnReply: string) returns (r: Outcome)
      modifies this
      ensures StatusFault(statusReply).Some? ==>
        r == Raised(StatusFault(statusReply).value) &&
        PSstate == old(PSstate) + StatusWrites(statusReply)
      ensures StatusFault(statusReply).None? && |Split(idnReply)| < 4 ==>
        r == Raised(IndexError(if |Split(idnReply)| < 3 then 2 else 3)) &&
        PSstate == old(PSstate) + StatusWrites(statusReply)
      ensures StatusFault(statusReply).None? && |Split(idnReply)| >= 4 ==>
        r == Done &&
        PSstate == old(PSstate) + StatusWrites(statusReply) + IdentityWrites(Split(idnReply)) &&
        StatusKeys + IdentityKeys <= PSstate.Keys
    {
      r := ReadState(statusReply);
      if r.Done? {
        r := IdentifyPS(idnReply);
      }
    }

    /** Decode a `STATUS?` reply into the six status keys, one character at a
        time. Stops at the first character Python's `int` cannot read; the keys
        written before that stay written. */
    method ReadState(status: string) returns (r: Outcome)
      modifies this
      ensures StatusFault(status).None? ==> r == Done && StatusKeys <= PSstate.Keys
      ensures StatusFault(status).Some? ==> r == Raised(StatusFault(status).value)
      ensures PSstate == old(PSstate) + StatusWrites(status)
      ensures forall key :: key in old(PSstate) && key !in StatusKeys ==>
        key in PSstate && PSstate[key] == old(PSstate)[key]
    {
      ghost var before := PSstate;

      // Channel control modes
      DecodeStart(before, status);
      var d0 := IntAt(status, 0);
      if d0.None? {
        DecodeEnd(before, PSstate, status, 0);
        return Raised(FaultAt(status, 0));
      }
      ModeStep(before, PSstate, status, 0, C1CCCV, d0.value);
      PSstate := PSstate[C1CCCV := ModeWord(d0.value)];

      var d1 := IntAt(status, 1);
      if d1.None? {
        DecodeEnd(before, PSstate, status, 1);
        return Raised(FaultAt(status, 1));
      }
      ModeStep(before, PSstate, status, 1, C2CCCV, d1.value);
      PSstate := PSstate[C2CCCV := ModeWord(d1.value)];

      // Tracking
      var d2 := IntAt(status, 2);
      if d2.None? {
        DecodeEnd(before, PSstate, status, 2);
        return Raised(FaultAt(status, 2));
      }
      PairStart(before, PSstate, status, 2);
      var d3 := IntAt(status, 3);
      if d3.None? {
        DecodeEnd(before, PSstate, status, 3);
        return Raised(FaultAt(status, 3));
      }
      TrackStep(before, PSstate, status, d2.value, d3.value);
      var track := TrackWord(d2.value, d3.value);
      if track.Some? {
        PSstate := PSstate[Track := track.value];
      }

      // Beep
      var d4 := IntAt(status, 4);
      if d4.None? {
        DecodeEnd(before, PSstate, status, 4);
        return Raised(FaultAt(status, 4));
      }
      SwitchStep(before, PSstate, status, 4, Beep, d4.value);
      PSstate := PSstate[Beep := SwitchWord(d4.value)];

      // Output
      var d5 := IntAt(status, 5);
      if d5.None? {
        DecodeEnd(before, PSstate, status, 5);
        return Raised(FaultAt(status, 5));
      }
      SwitchStep(before, PSstate, status, 5, Output, d5.value);
      PSstate := PSstate[Output := SwitchWord(d5.value)];

      // Baud rate
      var d6 := IntAt(status, 6);
      if d6.None? {
        DecodeEnd(before, PSstate, status, 6);
        return Raised(FaultAt(status, 6));
      }
      PairStart(before, PSstate, status, 6);
      var d7 := IntAt(status, 7);
      if d7.None? {
        DecodeEnd(before, PSstate, status, 7);
        return Raised(FaultAt(status, 7));
      }
      BaudStep(before, PSstate, status, d6.value, d7.value);
      var baud := BaudWord(d6.value, d7.value);
      if baud.Some? {
        PSstate := PSstate[BaudRate := baud.value];
      }
      DecodeEnd(before, PSstate, status, 8);
      r := Done;
    }

    /** Decode an `*IDN?` reply: split on commas, trim the serial number and
        firmware fields in the split list, then store the four identity keys.
        A reply with fewer than four fields raises before any key is written. */
    method IdentifyPS(idn: string) returns (r: Outcome)
      modifies this
      ensures |Split(idn)| < 3 ==> r == Raised(IndexError(2)) && PSstate == old(PSstate)
      ensures |Split(idn)| == 3 ==> r == Raised(IndexError(3)) && PSstate == old(PSstate)
      ensures |Split(idn)| >= 4 ==> r == Done && PSstate == old(PSstate) + IdentityWrites(Split(idn))
      ensures forall key :: key in old(PSstate) && key !in IdentityKeys ==>
        key in PSstate && PSstate[key] == old(PSstate)[key]
    {
      var fields := Split(idn);
      if |fields| <= 2 { return Raised(IndexError(2)); }
      fields := fields[2 := DropFront(fields[2], 3)];
      if |fields| <= 3 { return Raised(IndexError(3)); }
      fields := fields[3 := TakeFront(fields[3], 5)];
      PSstate := PSstate[Mfr := fields[0]];
      PSstate := PSstate[Model := fields[1]];
      PSstate := PSstate[SN := fields[2]];
      PSstate := PSstate[FWVer := fields[3]];
      r := Done;
    }
  }
}
