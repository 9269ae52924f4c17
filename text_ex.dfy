/** TextEx: pair strings "ONE-TWO" split on '-'. */
module TextEx {
  import opened Wrappers
  import DataModels

  /** String.Split with one separator: empty parts are kept. */
  function Split(s: string, sep: char): (parts: seq<string>)
    ensures |parts| >= 1
    decreases |s|
  {
    if s == [] then [[]]
    else
      var rest := Split(s[1..], sep);
      if s[0] == sep then [[]] + rest else [[s[0]] + rest[0]] + rest[1..]
  }

  /** String.Join with one separator, the inverse of Split. */
  function Join(parts: seq<string>, sep: char): string
    requires |parts| >= 1
    decreases |parts|
  {
    if |parts| == 1 then parts[0] else parts[0] + [sep] + Join(parts[1..], sep)
  }

  function Occurrences(s: string, c: char): nat
    decreases |s|
  {
    if s == [] then 0 else (if s[0] == c then 1 else 0) + Occurrences(s[1..], c)
  }

  /** The parts of a pair string, or None (null) when there are fewer than two. */
  function ParsePairString(pairString: string): (r: Option<seq<string>>)
    ensures r.Some? ==> |r.value| >= 2
  {
    var words := Split(pairString, '-');
    if |words| < 2 then None else Some(words)
  }

  lemma {:induction false} SplitJoin(s: string, sep: char)
    ensures Join(Split(s, sep), sep) == s
    decreases |s|
  {
    if s != [] {
      var rest := Split(s[1..], sep);
      SplitJoin(s[1..], sep);
      if s[0] == sep {
        assert Split(s, sep)[1..] == rest;
      } else {
        var parts := Split(s, sep);
        assert parts[0] == [s[0]] + rest[0];
        assert parts[1..] == rest[1..];
        if |rest| == 1 {
          assert Join(parts, sep) == [s[0]] + rest[0];
        } else {
          assert Join(rest, sep) == rest[0] + [sep] + Join(rest[1..], sep);
        }
      }
    }
  }

  lemma {:induction false} SplitCount(s: string, sep: char)
    ensures |Split(s, sep)| == Occurrences(s, sep) + 1
    decreases |s|
  {
    if s != [] {
      SplitCount(s[1..], sep);
    }
  }

  lemma {:induction false} SplitPartsHaveNoSeparator(s: string, sep: char)
    ensures forall i :: 0 <= i < |Split(s, sep)| ==> sep !in Split(s, sep)[i]
    decreases |s|
  {
    if s != [] {
      SplitPartsHaveNoSeparator(s[1..], sep);
      var rest := Split(s[1..], sep);
      var parts := Split(s, sep);
      if s[0] != sep {
        assert parts[0] == [s[0]] + rest[0];
        assert forall i :: 1 <= i < |parts| ==> parts[i] == rest[i];
      } else {
        assert forall i :: 1 <= i < |parts| ==> parts[i] == rest[i - 1];
      }
    }
  }

  lemma {:induction false} OccurrencesZero(s: string, c: char)
    ensures Occurrences(s, c) == 0 <==> c !in s
    decreases |s|
  {
    if s != [] {
      OccurrencesZero(s[1..], c);
      assert s == [s[0]] + s[1..];
    }
  }

  /** Splitting a text with no separator gives the text itself as its only part. */
  lemma {:induction false} SplitWithoutSeparator(s: string, sep: char)
    requires sep !in s
    ensures Split(s, sep) == [s]
    decreases |s|
  {
    if s != [] {
      assert s[0] != sep && sep !in s[1..];
      SplitWithoutSeparator(s[1..], sep);
      assert [s[0]] + s[1..] == s;
    }
  }

  /** A separator after a separator-free prefix ends the first part there. */
  lemma {:induction false} SplitAfterPrefix(a: string, sep: char, b: string)
    requires sep !in a
    ensures Split(a + [sep] + b, sep) == [a] + Split(b, sep)
    decreases |a|
  {
    if a == [] {
      assert a + [sep] + b == [sep] + b;
      assert ([sep] + b)[1..] == b;
    } else {
      assert (a + [sep] + b)[1..] == a[1..] + [sep] + b;
      SplitAfterPrefix(a[1..], sep, b);
      assert [a[0]] + a[1..] == a;
    }
  }

  /** Null exactly when the text holds no '-'; otherwise one part per dash, plus one. */
  lemma ParsePairStringParts(pairString: string)
    ensures ParsePairString(pairString).None? <==> '-' !in pairString
    ensures ParsePairString(pairString).Some? ==>
      |ParsePairString(pairString).value| == Occurrences(pairString, '-') + 1
  {
    SplitCount(pairString, '-');
    OccurrencesZero(pairString, '-');
  }

  /** The parts joined with '-' give back the input; no part contains '-'. */
  lemma ParsePairStringRoundTrip(pairString: string)
    requires ParsePairString(pairString).Some?
    ensures Join(ParsePairString(pairString).value, '-') == pairString
    ensures forall i :: 0 <= i < |ParsePairString(pairString).value| ==>
      '-' !in ParsePairString(pairString).value[i]
  {
    SplitJoin(pairString, '-');
    SplitPartsHaveNoSeparator(pairString, '-');
  }

  /** A key built from two dash-free codes parses back into exactly those codes. */
  lemma ParseTwoCodes(one: string, two: string)
    requires '-' !in one && '-' !in two
    ensures ParsePairString(one + "-" + two) == Some([one, two])
  {
    assert one + "-" + two == one + ['-'] + two;
    SplitAfterPrefix(one, '-', two);
    SplitWithoutSeparator(two, '-');
    assert Split(one + "-" + two, '-') == [one, two];
  }

  /** The key every per-pair structure is stored under parses back to the pair's two codes. */
  lemma PairStringParses(pair: DataModels.AssetPair)
    requires '-' !in pair.codeOne && '-' !in pair.codeTwo
    ensures ParsePairString(DataModels.PairString(pair)) == Some([pair.codeOne, pair.codeTwo])
  {
    ParseTwoCodes(pair.codeOne, pair.codeTwo);
  }

  /** Empty parts are kept: "A--B" has three parts, the middle one empty. */
  lemma EmptyPartsKept()
    ensures ParsePairString("A--B") == Some(["A", "", "B"])
  {
    assert "A--B" == "A" + ['-'] + "-B";
    SplitAfterPrefix("A", '-', "-B");
    assert "-B" == "" + ['-'] + "B";
    SplitAfterPrefix("", '-', "B");
    SplitWithoutSeparator("B", '-');
    assert Split("-B", '-') == [""] + ["B"];
    assert Split("A--B", '-') == ["A"] + Split("-B", '-');
    assert ["A"] + ([""] + ["B"]) == ["A", "", "B"];
  }
}
