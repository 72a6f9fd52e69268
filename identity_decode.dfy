/** What the `*IDN?` reply means. The reply is split on commas; field 0 is the
    manufacturer, field 1 the model, field 2 the serial number after a
    three-character prefix, field 3 the firmware version cut to five
    characters. Fields after 3 are ignored. */
module IdentityDecode {
  import opened CommaSplit
  import opened StateKeys

  /** Python's `s[n:]`: `s` without its first n characters, empty when n >= |s|. */
  function DropFront(s: string, n: nat): (r: string)
    ensures |r| == if n <= |s| then |s| - n else 0
    ensures r == s[|s| - |r|..]
  {
    if n <= |s| then s[n..] else []
  }

  /** Python's `s[:n]`: the first n characters of `s`, all of it when n >= |s|. */
  function TakeFront(s: string, n: nat): (r: string)
    ensures |r| == if n <= |s| then n else |s|
    ensures r == s[..|r|]
  {
    if n <= |s| then s[..n] else s
  }

  /** The entries an identity decode writes, from the split reply. */
  function IdentityWrites(fields: seq<string>): (m: map<Key, string>)
    requires |fields| >= 4
    ensures m.Keys == IdentityKeys
  {
    map[Mfr := fields[0], Model := fields[1],
        SN := DropFront(fields[2], 3), FWVer := TakeFront(fields[3], 5)]
  }

  /** The decoded identity, field by field: manufacturer and model verbatim,
      the serial number as field 2 less its first three characters, and the
      firmware version as the first min(5, length) characters of field 3. */
  lemma IdentityFields(fields: seq<string>)
    requires |fields| >= 4
    ensures IdentityWrites(fields)[Mfr] == fields[0]
    ensures IdentityWrites(fields)[Model] == fields[1]
    ensures var sn := IdentityWrites(fields)[SN];
      (|fields[2]| <= 3 ==> sn == "") &&
      (|fields[2]| > 3 ==> fields[2] == fields[2][..3] + sn)
    ensures var fw := IdentityWrites(fields)[FWVer];
      |fw| == (if |fields[3]| < 5 then |fields[3]| else 5) && fw <= fields[3]
  {
  }

  /** The identity decode fails exactly when the reply has fewer than three commas. */
  lemma TooFewFields(idn: string)
    ensures |Split(idn)| < 4 <==> CommaCount(idn) < 3
  {
    SplitCount(idn);
  }

  /** Text after a fourth field, following a comma, does not change the decode. */
  lemma {:induction false} IgnoresTrailingFields(idn: string, more: string)
    requires |Split(idn)| >= 4
    ensures |Split(idn + "," + more)| >= 4
    ensures IdentityWrites(Split(idn + "," + more)) == IdentityWrites(Split(idn))
  {
    SplitAppend(idn, more);
    var both := Split(idn) + Split(more);
    assert both[..4] == Split(idn)[..4];
    assert forall k :: 0 <= k < 4 ==> both[k] == Split(idn)[k];
  }

  /** No decoded identity value contains a comma. */
  lemma IdentityCommaFree(idn: string)
    requires |Split(idn)| >= 4
    ensures forall key :: key in IdentityWrites(Split(idn)) ==> CommaFree(IdentityWrites(Split(idn))[key])
  {
    var f := Split(idn);
    SplitFieldsCommaFree(idn);
    assert CommaFree(f[0]) && CommaFree(f[1]) && CommaFree(f[2]) && CommaFree(f[3]);
    var sn := DropFront(f[2], 3);
    assert CommaFree(sn) by {
      forall i | 0 <= i < |sn| ensures sn[i] != ',' { assert sn[i] == f[2][|f[2]| - |sn| + i]; }
    }
    var fw := TakeFront(f[3], 5);
    assert CommaFree(fw) by {
      forall i | 0 <= i < |fw| ensures fw[i] != ',' { assert fw[i] == f[3][i]; }
    }
  }

  /** The reply an instrument sends for a given identity: the four fields
      joined with commas, the serial number behind a three-character prefix. */
  function IdentityReply(mfr: string, model: string, prefix: string, serial: string, firmware: string): string
  {
    Join([mfr, model, prefix + serial, firmware])
  }

  /** Decoding a reply built from comma-free fields gives back manufacturer,
      model and serial number, and the firmware version cut to five characters. */
  lemma {:induction false} IdentityRoundTrip(mfr: string, model: string, prefix: string, serial: string, firmware: string)
    requires |prefix| == 3
    requires CommaFree(mfr) && CommaFree(model) && CommaFree(prefix + serial) && CommaFree(firmware)
    ensures |Split(IdentityReply(mfr, model, prefix, serial, firmware))| == 4
    ensures IdentityWrites(Split(IdentityReply(mfr, model, prefix, serial, firmware))) ==
      map[Mfr := mfr, Model := model, SN := serial, FWVer := TakeFront(firmware, 5)]
  {
    var fields := [mfr, model, prefix + serial, firmware];
    SplitJoin(fields);
    assert (prefix + serial)[3..] == serial;
  }
}
