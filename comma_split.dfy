/** Python's `str.split(",")` on a reply string, and its inverse `",".join`.
    Empty fields are kept, so a string with c commas splits into c + 1 fields. */
module CommaSplit {

  /** Number of commas in `s`. */
  function CommaCount(s: string): nat
  {
    if s == [] then 0 else (if s[0] == ',' then 1 else 0) + CommaCount(s[1..])
  }

  /** `s.split(",")`: the maximal comma-free pieces of `s`, in order. */
  function Split(s: string): (fields: seq<string>)
    ensures |fields| >= 1
    decreases |s|
  {
    if s == [] then [""]
    else if s[0] == ',' then [""] + Split(s[1..])
    else
      var rest := Split(s[1..]);
      [[s[0]] + rest[0]] + rest[1..]
  }

  /** `",".join(fields)`. */
  function Join(fields: seq<string>): string
    requires |fields| >= 1
    decreases |fields|
  {
    if |fields| == 1 then fields[0] else fields[0] + "," + Join(fields[1..])
  }

  predicate CommaFree(field: string)
  {
    forall i :: 0 <= i < |field| ==> field[i] != ','
  }

  /** Splitting yields one more field than there are commas. */
  lemma {:induction false} SplitCount(s: string)
    ensures |Split(s)| == CommaCount(s) + 1
    decreases |s|
  {
    if s != [] {
      SplitCount(s[1..]);
    }
  }

  /** No field produced by a split contains a comma. */
  lemma {:induction false} SplitFieldsCommaFree(s: string)
    ensures forall k :: 0 <= k < |Split(s)| ==> CommaFree(Split(s)[k])
    decreases |s|
  {
    if s != [] {
      SplitFieldsCommaFree(s[1..]);
      var rest := Split(s[1..]);
      if s[0] != ',' {
        assert CommaFree([s[0]] + rest[0]) by {
          assert CommaFree(rest[0]);
          forall i | 0 <= i < |[s[0]] + rest[0]|
            ensures ([s[0]] + rest[0])[i] != ','
          {
            if i > 0 { assert ([s[0]] + rest[0])[i] == rest[0][i - 1]; }
          }
        }
      }
    }
  }

  /** Joining the fields of a split gives back the original string. */
  lemma {:induction false} JoinSplit(s: string)
    ensures Join(Split(s)) == s
    decreases |s|
  {
    if s != [] {
      JoinSplit(s[1..]);
      var rest := Split(s[1..]);
      if s[0] == ',' {
        assert Split(s) == [""] + rest;
        assert Join(Split(s)) == "" + "," + Join(rest);
        assert s == [s[0]] + s[1..];
      } else {
        JoinHead(rest, [s[0]]);
        assert s == [s[0]] + s[1..];
      }
    }
  }

  /** Prepending text to the first field prepends it to the joined string. */
  lemma {:induction false} JoinHead(fields: seq<string>, prefix: string)
    requires |fields| >= 1
    ensures Join([prefix + fields[0]] + fields[1..]) == prefix + Join(fields)
  {
    var g := [prefix + fields[0]] + fields[1..];
    if |fields| > 1 {
      assert g[1..] == fields[1..];
    }
  }

  /** Splitting the join of comma-free fields gives back those fields. */
  lemma {:induction false} SplitJoin(fields: seq<string>)
    requires |fields| >= 1
    requires forall k :: 0 <= k < |fields| ==> CommaFree(fields[k])
    ensures Split(Join(fields)) == fields
    decreases |fields|, |fields[0]|
  {
    var f := fields[0];
    if f == [] {
      if |fields| > 1 {
        SplitJoin(fields[1..]);
        assert Join(fields) == "," + Join(fields[1..]);
        assert Join(fields)[1..] == Join(fields[1..]);
        assert fields == [""] + fields[1..];
      }
    } else {
      var tail := [f[1..]] + fields[1..];
      assert tail[1..] == fields[1..];
      assert CommaFree(f[1..]) by {
        forall i | 0 <= i < |f[1..]| ensures f[1..][i] != ',' { assert f[1..][i] == f[i + 1]; }
      }
      SplitJoin(tail);
      JoinHead(tail, [f[0]]);
      assert [f[0]] + f[1..] == f;
      assert [[f[0]] + tail[0]] + tail[1..] == fields;
      var s := Join(fields);
      assert s == [f[0]] + Join(tail);
      assert s[0] == f[0] && s[0] != ',';
      assert s[1..] == Join(tail);
    }
  }

  /** Prepending a non-comma character to a field list's first field. */
  function Glue(c: char, fields: seq<string>): (glued: seq<string>)
    requires |fields| >= 1
    ensures |glued| == |fields| && glued[1..] == fields[1..]
  {
    [[c] + fields[0]] + fields[1..]
  }

  /** One step of `Split` on a non-empty string. */
  lemma SplitStep(s: string)
    requires s != []
    ensures Split(s) == if s[0] == ',' then [""] + Split(s[1..]) else Glue(s[0], Split(s[1..]))
  {
  }

  /** Gluing onto a concatenation glues onto its first part. */
  lemma GlueAppend(c: char, fields: seq<string>, more: seq<string>)
    requires |fields| >= 1
    ensures Glue(c, fields + more) == Glue(c, fields) + more
  {
    assert (fields + more)[0] == fields[0];
    assert (fields + more)[1..] == fields[1..] + more;
  }

  /** A leading comma contributes an empty first field. */
  lemma LeadingComma(b: string)
    ensures Split([','] + b) == [""] + Split(b)
  {
    SplitStep([','] + b);
    assert ([','] + b)[1..] == b;
  }

  /** One step of `Split` on `a + "," + b` with `a` non-empty. */
  lemma StepAround(a: string, b: string)
    requires a != []
    ensures Split(a + "," + b) ==
      if a[0] == ',' then [""] + Split(a[1..] + "," + b) else Glue(a[0], Split(a[1..] + "," + b))
  {
    var s := a + "," + b;
    assert s[0] == a[0] && s[1..] == a[1..] + "," + b;
    SplitStep(s);
  }

  /** Splitting around a comma splits each side separately. */
  lemma {:induction false} SplitAppend(a: string, b: string)
    ensures Split(a + "," + b) == Split(a) + Split(b)
    decreases |a|
  {
    if a == [] {
      assert a + "," + b == [','] + b;
      LeadingComma(b);
    } else {
      StepAround(a, b);
      SplitAppend(a[1..], b);
      SplitStep(a);
      if a[0] != ',' {
        GlueAppend(a[0], Split(a[1..]), Split(b));
      }
    }
  }
}
