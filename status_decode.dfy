/** What the `STATUS?` reply means, character by character.
    The reply is read at fixed positions 0..7, each character converted with
    Python's `int`; the class in Gpd4303sGui writes the decoded words into the
    state dictionary. This module states, on the characters themselves, which
    keys a reply sets, to which words, and where decoding stops. */
module StatusDecode {
  import opened Outcomes
  import opened StateKeys

  /** A character Python's `int` accepts on its own. */
  predicate IsDigit(c: char)
  {
    '0' <= c <= '9'
  }

  function DigitValue(c: char): (d: nat)
    requires IsDigit(c)
    ensures d < 10
  {
    c as int - '0' as int
  }

  /** `int(s[k])` succeeds: the index is in range and the character is a digit. */
  predicate Readable(s: string, k: nat)
  {
    k < |s| && IsDigit(s[k])
  }

  /** The character that spells the decimal digit d. */
  function DigitChar(d: nat): char
    requires d < 10
  {
    ('0' as int + d) as char
  }

  /** `int(s[k])`: the digit's value, or the exception Python raises. A value
      is the digit whose character is at position k; none means the position
      is past the end or holds no digit character at all. */
  function IntAt(s: string, k: nat): (r: Option<nat>)
    ensures r.Some? ==> k < |s| && r.value < 10 && s[k] == DigitChar(r.value)
    ensures r.None? ==> k >= |s| || forall d :: 0 <= d < 10 ==> s[k] != DigitChar(d)
  {
    if k < |s| && IsDigit(s[k]) then Some(DigitValue(s[k])) else None
  }

  /** The exception `int(s[k])` raises when it fails. */
  function FaultAt(s: string, k: nat): Fault
  {
    if k < |s| then ValueError(k) else IndexError(k)
  }

  /** The first of the positions from..7 whose character cannot be read. */
  function FirstUnreadable(s: string, from: nat): (r: Option<nat>)
    requires from <= 8
    ensures r.Some? ==> from <= r.value < 8 && !Readable(s, r.value)
    ensures r.Some? ==> forall j :: from <= j < r.value ==> Readable(s, j)
    ensures r.None? <==> forall j :: from <= j < 8 ==> Readable(s, j)
    decreases 8 - from
  {
    if from == 8 then None
    else if !Readable(s, from) then Some(from)
    else FirstUnreadable(s, from + 1)
  }

  /** How many of the eight status characters are read before decoding stops. */
  function ReadCount(s: string): (n: nat)
    ensures n <= 8 && n <= |s|
    ensures forall j :: 0 <= j < n ==> Readable(s, j)
    ensures n < 8 ==> !Readable(s, n)
  {
    match FirstUnreadable(s, 0)
    case None => 8
    case Some(k) => k
  }

  /** Decoding stops at k when characters 0..k-1 read and character k does not. */
  lemma ReadCountIs(s: string, k: nat)
    requires k <= 8
    requires forall j :: 0 <= j < k ==> Readable(s, j)
    requires k < 8 ==> !Readable(s, k)
    ensures ReadCount(s) == k
  {
  }

  /** The exception a status decode ends with, if any. */
  function StatusFault(s: string): Option<Fault>
  {
    if ReadCount(s) == 8 then None else Some(FaultAt(s, ReadCount(s)))
  }

  /** A status decode completes exactly when the reply has at least eight
      characters and the first eight are digits. */
  lemma CompletesIff(s: string)
    ensures StatusFault(s).None? <==> |s| >= 8 && forall j :: 0 <= j < 8 ==> IsDigit(s[j])
  {
  }

  // Meaning of each status character, stated on the characters of a digit reply.

  function ChannelMode(c: char): string
  {
    if c == '1' then "CV" else "CC"
  }

  function TrackMode(hi: char, lo: char): string
  {
    if hi == '0' && lo == '1' then "Independent"
    else if hi == '1' && lo == '1' then "Series"
    else "Parallel"
  }

  function Switch(c: char): string
  {
    if c == '1' then "ON" else "OFF"
  }

  function BaudSetting(hi: char, lo: char): string
  {
    if hi == '0' && lo == '0' then "115200"
    else if hi == '0' && lo == '1' then "57600"
    else "9600"
  }

  /** The keys whose characters all come before position n. */
  function KeysBefore(n: nat): (keys: set<Key>)
    ensures keys <= StatusKeys
    ensures n >= 8 ==> keys == StatusKeys
    ensures n == 0 ==> keys == {}
  {
    (if n > 0 then {C1CCCV} else {})
    + (if n > 1 then {C2CCCV} else {})
    + (if n > 3 then {Track} else {})
    + (if n > 4 then {Beep} else {})
    + (if n > 5 then {Output} else {})
    + (if n > 7 then {BaudRate} else {})
  }

  /** The entries written once the first n status characters have been read:
      reading character k completes the key whose last character is k. */
  function WritesBefore(s: string, n: nat): (m: map<Key, string>)
    requires n <= 8 && n <= |s|
  {
    if n == 0 then map[]
    else
      var m := WritesBefore(s, n - 1);
      var k := n - 1;
      if k == 0 then m[C1CCCV := ChannelMode(s[0])]
      else if k == 1 then m[C2CCCV := ChannelMode(s[1])]
      else if k == 3 then m[Track := TrackMode(s[2], s[3])]
      else if k == 4 then m[Beep := Switch(s[4])]
      else if k == 5 then m[Output := Switch(s[5])]
      else if k == 7 then m[BaudRate := BaudSetting(s[6], s[7])]
      else m
  }

  /** The value of each key written once n characters have been read is the
      meaning of that key's characters. */
  lemma {:induction false} WritesBeforeValues(s: string, n: nat)
    requires n <= 8 && n <= |s|
    ensures WritesBefore(s, n).Keys == KeysBefore(n)
    ensures n > 0 ==> WritesBefore(s, n)[C1CCCV] == ChannelMode(s[0])
    ensures n > 1 ==> WritesBefore(s, n)[C2CCCV] == ChannelMode(s[1])
    ensures n > 3 ==> WritesBefore(s, n)[Track] == TrackMode(s[2], s[3])
    ensures n > 4 ==> WritesBefore(s, n)[Beep] == Switch(s[4])
    ensures n > 5 ==> WritesBefore(s, n)[Output] == Switch(s[5])
    ensures n > 7 ==> WritesBefore(s, n)[BaudRate] == BaudSetting(s[6], s[7])
  {
    if n > 0 {
      WritesBeforeValues(s, n - 1);
    }
  }

  /** The entries depend only on the characters read. */
  lemma {:induction false} SameWritesBefore(s: string, t: string, n: nat)
    requires n <= 8 && n <= |s| && n <= |t|
    requires forall j :: 0 <= j < n ==> s[j] == t[j]
    ensures WritesBefore(s, n) == WritesBefore(t, n)
  {
    if n > 0 {
      SameWritesBefore(s, t, n - 1);
    }
  }

  /** The entries a status decode writes before it completes or raises:
      exactly the keys whose characters it read. */
  function StatusWrites(s: string): (m: map<Key, string>)
    ensures m.Keys == KeysBefore(ReadCount(s))
  {
    WritesBeforeValues(s, ReadCount(s));
    WritesBefore(s, ReadCount(s))
  }

  /** When characters 0..k-1 read and character k does not (or k is 8), the
      decode writes the entries of the first k characters and ends as `int`
      at position k does. */
  lemma StopsAt(s: string, k: nat)
    requires k <= 8 && k <= |s| + 1
    requires forall j :: 0 <= j < k ==> Readable(s, j)
    requires k < 8 ==> !Readable(s, k)
    ensures k <= |s|
    ensures StatusWrites(s) == WritesBefore(s, k)
    ensures StatusFault(s) == if k == 8 then None else Some(FaultAt(s, k))
  {
    ReadCountIs(s, k);
  }

  // Properties of the status decode.

  /** Each channel reports constant voltage exactly when its character is '1'. */
  lemma ChannelModeRule(s: string)
    requires StatusFault(s).None?
    ensures StatusWrites(s)[C1CCCV] in {"CV", "CC"} && StatusWrites(s)[C2CCCV] in {"CV", "CC"}
    ensures StatusWrites(s)[C1CCCV] == "CV" <==> s[0] == '1'
    ensures StatusWrites(s)[C2CCCV] == "CV" <==> s[1] == '1'
  {
    WritesBeforeValues(s, ReadCount(s));
  }

  /** Tracking is Independent for "01", Series for "11", and Parallel for every
      other digit pair: the third test of the source is always true. */
  lemma TrackRule(s: string)
    requires ReadCount(s) >= 4
    ensures Track in StatusWrites(s)
    ensures StatusWrites(s)[Track] == "Independent" <==> s[2] == '0' && s[3] == '1'
    ensures StatusWrites(s)[Track] == "Series" <==> s[2] == '1' && s[3] == '1'
    ensures StatusWrites(s)[Track] == "Parallel" <==> !(s[2] in "01" && s[3] == '1')
  {
    WritesBeforeValues(s, ReadCount(s));
  }

  /** Beep and output are ON exactly when their character is '1', OFF otherwise. */
  lemma SwitchRule(s: string)
    requires ReadCount(s) >= 6
    ensures StatusWrites(s)[Beep] in {"ON", "OFF"} && StatusWrites(s)[Output] in {"ON", "OFF"}
    ensures StatusWrites(s)[Beep] == "ON" <==> s[4] == '1'
    ensures StatusWrites(s)[Output] == "ON" <==> s[5] == '1'
  {
    WritesBeforeValues(s, ReadCount(s));
  }

  /** The baud rate is 115200 for "00", 57600 for "01" and 9600 for every
      other digit pair, by the same always-true third test. */
  lemma BaudRateRule(s: string)
    requires StatusFault(s).None?
    ensures StatusWrites(s)[BaudRate] == "115200" <==> s[6] == '0' && s[7] == '0'
    ensures StatusWrites(s)[BaudRate] == "57600" <==> s[6] == '0' && s[7] == '1'
    ensures StatusWrites(s)[BaudRate] == "9600" <==> !(s[6] == '0' && s[7] in "01")
  {
    WritesBeforeValues(s, ReadCount(s));
  }

  /** A reply of eight digits sets all six status keys and nothing else. */
  lemma CompleteDecodeKeys(s: string)
    requires StatusFault(s).None?
    ensures StatusWrites(s).Keys == StatusKeys
  {
  }

  /** A decode that raises has read every character before the failing
      position, and wrote exactly the keys whose characters lie before it. */
  lemma FaultStopsDecode(s: string)
    requires StatusFault(s).Some?
    ensures var k := StatusFault(s).value.index;
      k < 8 && (forall j :: 0 <= j < k ==> IsDigit(s[j])) &&
      StatusWrites(s).Keys == KeysBefore(k) && BaudRate !in StatusWrites(s)
  {
  }

  /** A reply shorter than eight characters always raises; if every character
      it has is a digit, the exception is the index error at its end. */
  lemma ShortReplyRaises(s: string)
    requires |s| < 8
    ensures StatusFault(s).Some?
    ensures (forall j :: 0 <= j < |s| ==> IsDigit(s[j])) ==> StatusFault(s) == Some(IndexError(|s|))
  {
    if forall j :: 0 <= j < |s| ==> IsDigit(s[j]) {
      assert forall j :: 0 <= j < |s| ==> Readable(s, j);
      assert !Readable(s, |s|);
      assert ReadCount(s) == |s|;
    }
  }

  /** Characters after position 7 do not affect the decode. */
  lemma IgnoresTail(s: string, t: string)
    requires 8 <= |s| && 8 <= |t| && s[..8] == t[..8]
    ensures StatusWrites(s) == StatusWrites(t)
    ensures StatusFault(s) == StatusFault(t)
  {
    SameFirstUnreadable(s, t, 0);
    forall j | 0 <= j < 8 ensures s[j] == t[j] {
      assert s[..8][j] == s[j] && t[..8][j] == t[j];
    }
    SameWritesBefore(s, t, ReadCount(s));
  }

  lemma {:induction false} SameFirstUnreadable(s: string, t: string, from: nat)
    requires from <= 8 && 8 <= |s| && 8 <= |t| && s[..8] == t[..8]
    ensures FirstUnreadable(s, from) == FirstUnreadable(t, from)
    decreases 8 - from
  {
    if from < 8 {
      assert s[..8][from] == s[from] && t[..8][from] == t[from];
      SameFirstUnreadable(s, t, from + 1);
    }
  }

  /** Replies whose tracking digits are "00" or "10" read as Parallel. */
  lemma ParallelFallback()
    ensures StatusWrites("01001000")[Track] == "Parallel"
    ensures StatusWrites("01101000")[Track] == "Parallel"
  {
    var s := "01001000";
    assert forall j :: 0 <= j < 8 ==> IsDigit(s[j]);
    TrackRule(s);
    var t := "01101000";
    assert forall j :: 0 <= j < 8 ==> IsDigit(t[j]);
    TrackRule(t);
  }

  /** The reply "01011000" decodes field by field. */
  lemma SampleReply()
    ensures StatusWrites("01011000") == map[
      C1CCCV := "CC", C2CCCV := "CV", Track := "Independent",
      Beep := "ON", Output := "OFF", BaudRate := "115200"]
  {
    assert ReadCount("01011000") == 8;
  }
}
