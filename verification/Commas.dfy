/** Splitting text on commas, and joining it again. */
module Commas {
  /** `s.split(',')`. */
  function SplitCommas(s: string): (r: seq<string>)
    ensures r != []
  {
    if s == "" then [""]
    else
      var r := SplitCommas(s[1..]);
      if s[0] == ',' then [""] + r else [[s[0]] + r[0]] + r[1..]
  }

  function JoinCommas(fields: seq<string>): string
    requires fields != []
  {
    if |fields| == 1 then fields[0] else fields[0] + ("," + JoinCommas(fields[1..]))
  }

  ghost predicate CommaFree(fields: seq<string>) {
    forall f :: f in fields ==> ',' !in f
  }

  lemma FirstCharacter(c: char, fields: seq<string>)
    requires fields != []
    ensures JoinCommas([[c] + fields[0]] + fields[1..]) == [c] + JoinCommas(fields)
  {
    if |fields| > 1 {
      assert ([[c] + fields[0]] + fields[1..])[1..] == fields[1..];
    }
  }

  /** Splitting inverts joining, and gives the only comma-free fields that join to the text. */
  lemma SplitExactly(s: string, fields: seq<string>)
    requires fields != [] && CommaFree(fields)
    ensures SplitCommas(s) == fields <==> s == JoinCommas(fields)
  {
    JoinOfSplit(s);
    if s == JoinCommas(fields) {
      SplitOfJoin(fields);
    }
  }

  lemma {:induction false} JoinOfSplit(s: string)
    ensures JoinCommas(SplitCommas(s)) == s && CommaFree(SplitCommas(s))
  {
    if s != "" {
      var r := SplitCommas(s[1..]);
      JoinOfSplit(s[1..]);
      if s[0] == ',' {
        assert ([""] + r)[1..] == r;
      } else {
        FirstCharacter(s[0], r);
        assert r[0] in r;
      }
    }
  }

  lemma {:induction false} SplitOfJoin(fields: seq<string>)
    requires fields != [] && CommaFree(fields)
    ensures SplitCommas(JoinCommas(fields)) == fields
    decreases |fields|, |fields[0]|
  {
    var f, s := fields[0], JoinCommas(fields);
    if f != "" {
      var shorter := [f[1..]] + fields[1..];
      FirstCharacter(f[0], shorter);
      assert [f[0]] + shorter[0] == f;
      assert [[f[0]] + shorter[0]] + shorter[1..] == fields;
      assert s[1..] == JoinCommas(shorter);
      assert f[0] in f && f in fields;
      assert CommaFree(shorter) by {
        forall g | g in shorter
          ensures ',' !in g
        {
          assert forall c :: c in f[1..] ==> c in f;
          assert g == f[1..] || g in fields;
        }
      }
      SplitOfJoin(shorter);
    } else if |fields| > 1 {
      SplitOfJoin(fields[1..]);
      assert s[1..] == JoinCommas(fields[1..]);
      assert [""] + fields[1..] == fields;
    } else {
      assert fields == [""];
    }
  }

  /** There is one field more than there are commas. */
  lemma {:induction false} SplitCounts(s: string)
    ensures |SplitCommas(s)| == multiset(s)[','] + 1
  {
    if s != "" {
      SplitCounts(s[1..]);
      assert s == [s[0]] + s[1..];
      assert multiset(s) == multiset([s[0]]) + multiset(s[1..]);
    }
  }
}
