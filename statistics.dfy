/** The crime statistics page: per-category and per-outcome tallies of the
    police feed, the chart labels, and the solved-cases figure. */
module Statistics {
  import opened Wrappers
  import opened Seqs
  import opened Text

  datatype OutcomeStatus = OutcomeStatus(category: string, date: string)

  datatype Crime = Crime(category: string, outcomeStatus: Option<OutcomeStatus>)

  /** One row of a tally as `Object.entries` lists it: a key (or its label) and its count. */
  datatype Entry = Entry(name: string, value: nat)

  /** The bucket for crimes with no recorded outcome. */
  const UnderInvestigation: string := "Under Investigation"

  function Categories(crimes: seq<Crime>): seq<string>
  {
    seq(|crimes|, i requires 0 <= i < |crimes| => crimes[i].category)
  }

  /** `crime.outcome_status?.category || 'Under Investigation'`. */
  function OutcomeOf(c: Crime): (r: string)
    ensures r != ""
    ensures r == UnderInvestigation || (c.outcomeStatus.Some? && r == c.outcomeStatus.value.category)
  {
    if c.outcomeStatus.Some? && c.outcomeStatus.value.category != "" then c.outcomeStatus.value.category
    else UnderInvestigation
  }

  function Outcomes(crimes: seq<Crime>): seq<string>
  {
    seq(|crimes|, i requires 0 <= i < |crimes| => OutcomeOf(crimes[i]))
  }

  // ---------------------------------------------------------------------------
  // Tallies

  /** The counting loop of both tallies: `counts[k] = (counts[k] || 0) + 1` for each key in turn.
      `order` is the object's key order: each key where it first occurred. */
  method Tally(keys: seq<string>) returns (order: seq<string>, counts: map<string, nat>)
    ensures order == Distinct(keys)
    ensures forall k :: k in counts <==> k in keys
    ensures forall k :: k in counts ==> counts[k] == multiset(keys)[k]
  {
    order, counts := [], map[];
    for i := 0 to |keys|
      invariant order == Distinct(keys[..i])
      invariant forall k :: k in counts <==> k in keys[..i]
      invariant forall k :: k in counts ==> counts[k] == multiset(keys[..i])[k]
    {
      var k := keys[i];
      assert keys[..i + 1] == keys[..i] + [k];
      if k !in counts {
        order := order + [k];
      }
      counts := counts[k := (if k in counts then counts[k] else 0) + 1];
    }
    assert keys[..|keys|] == keys;
  }

  /** The sum of the counts. */
  function Total(entries: seq<Entry>): nat
  {
    if entries == [] then 0 else entries[0].value + Total(entries[1..])
  }

  /** The sum of `m`'s multiplicities of the keys `ks`. */
  function CountSum(ks: seq<string>, m: multiset<string>): nat
  {
    if ks == [] then 0 else m[ks[0]] + CountSum(ks[1..], m)
  }

  lemma {:induction false} CountSumAppend(ks: seq<string>, k: string, m: multiset<string>)
    ensures CountSum(ks + [k], m) == CountSum(ks, m) + m[k]
  {
    if ks != [] {
      assert (ks + [k])[1..] == ks[1..] + [k];
      CountSumAppend(ks[1..], k, m);
    }
  }

  lemma {:induction false} CountSumAddOne(ks: seq<string>, m: multiset<string>, x: string)
    requires NoDup(ks)
    ensures CountSum(ks, m + multiset{x}) == CountSum(ks, m) + if x in ks then 1 else 0
  {
    if ks != [] {
      assert NoDup(ks[1..]) by {
        forall i, j | 0 <= i < j < |ks[1..]| ensures ks[1..][i] != ks[1..][j] {
          assert ks[1..][i] == ks[i + 1] && ks[1..][j] == ks[j + 1];
        }
      }
      assert x in ks <==> x == ks[0] || x in ks[1..];
      assert ks[0] !in ks[1..] by {
        forall i | 0 <= i < |ks[1..]| ensures ks[1..][i] != ks[0] {
          assert ks[1..][i] == ks[i + 1];
        }
      }
      CountSumAddOne(ks[1..], m, x);
    }
  }

  /** Conservation: every key is counted once under its own distinct entry. */
  lemma {:induction false} CountSumDistinct(keys: seq<string>)
    ensures CountSum(Distinct(keys), multiset(keys)) == |keys|
  {
    if keys != [] {
      var init := keys[..|keys| - 1];
      var x := keys[|keys| - 1];
      assert keys == init + [x];
      assert multiset(keys) == multiset(init) + multiset{x};
      CountSumDistinct(init);
      var d := Distinct(init);
      CountSumAddOne(d, multiset(init), x);
      if x !in d {
        CountSumAppend(d, x, multiset(keys));
        assert multiset(init)[x] == 0;
      }
    }
  }

  /** A tally whose entries carry the counts of the distinct keys adds up to the number of keys. */
  lemma {:induction false} TotalOfTally(entries: seq<Entry>, ks: seq<string>, m: multiset<string>)
    requires |entries| == |ks|
    requires forall i :: 0 <= i < |ks| ==> entries[i].value == m[ks[i]]
    ensures Total(entries) == CountSum(ks, m)
  {
    if ks != [] {
      TotalOfTally(entries[1..], ks[1..], m);
    }
  }

  // ---------------------------------------------------------------------------
  // Chart labels

  /** `word.charAt(0).toUpperCase() + word.slice(1)`: the first character upper-cased, the rest kept. */
  function Capitalize(word: string): (r: string)
    ensures |r| == |word|
    ensures |word| > 0 ==> r[0] == UpperChar(word[0])
    ensures forall i :: 0 < i < |word| ==> r[i] == word[i]
  {
    if word == [] then [] else [UpperChar(word[0])] + word[1..]
  }

  function CapitalizeAll(words: seq<string>): (r: seq<string>)
    ensures |r| == |words|
    ensures forall i :: 0 <= i < |words| ==> r[i] == Capitalize(words[i])
  {
    if words == [] then [] else [Capitalize(words[0])] + CapitalizeAll(words[1..])
  }

  /** The chart label of a category slug: hyphens to spaces, then each space-separated word capitalised. */
  function Label(raw: string): (r: string)
    ensures |r| == |raw|
    ensures r == CapitalizeWordStarts(ReplaceChar(raw, '-', ' '), true)
  {
    CapitalizeJoinFirst(ReplaceChar(raw, '-', ' '));
    Join(CapitalizeAll(Split(ReplaceChar(raw, '-', ' '), ' ')), ' ')
  }

  /** Reference reading of the label: scan the text, upper-casing every character that
      starts a word (the first one when `atStart`, or one that follows a space). */
  function CapitalizeWordStarts(t: string, atStart: bool): (r: string)
    ensures |r| == |t|
    ensures forall i :: 0 <= i < |t| ==>
      r[i] == if (i == 0 && atStart) || (i > 0 && t[i - 1] == ' ') then UpperChar(t[i]) else t[i]
  {
    if t == [] then []
    else [if atStart then UpperChar(t[0]) else t[0]] + CapitalizeWordStarts(t[1..], t[0] == ' ')
  }

  /** An empty first word contributes only its separator. */
  lemma JoinEmptyFirst(words: seq<string>, sep: char)
    requires words != []
    ensures Join([[]] + words, sep) == [sep] + Join(words, sep)
  {
    assert ([[]] + words)[1..] == words;
  }

  /** Splitting on spaces, capitalising every word and joining again is the scan above. */
  lemma {:induction false} CapitalizeJoinFirst(t: string)
    ensures Join(CapitalizeAll(Split(t, ' ')), ' ') == CapitalizeWordStarts(t, true)
    decreases |t|, 1
  {
    if t != [] {
      var rest := Split(t[1..], ' ');
      if t[0] == ' ' {
        CapitalizeJoinFirst(t[1..]);
        assert CapitalizeAll([[]] + rest) == [[]] + CapitalizeAll(rest);
        JoinEmptyFirst(CapitalizeAll(rest), ' ');
      } else {
        CapitalizeJoinRest(t[1..]);
        var w, ws := rest[0], rest[1..];
        assert CapitalizeAll([[t[0]] + w] + ws) == [[UpperChar(t[0])] + w] + CapitalizeAll(ws);
        JoinPrepend(UpperChar(t[0]), w, CapitalizeAll(ws), ' ');
      }
    }
  }

  /** The same with the first word left as it is. */
  lemma {:induction false} CapitalizeJoinRest(t: string)
    ensures var ws := Split(t, ' ');
      Join([ws[0]] + CapitalizeAll(ws[1..]), ' ') == CapitalizeWordStarts(t, false)
    decreases |t|, 0
  {
    if t != [] {
      var rest := Split(t[1..], ' ');
      if t[0] == ' ' {
        CapitalizeJoinFirst(t[1..]);
        JoinEmptyFirst(CapitalizeAll(rest), ' ');
      } else {
        CapitalizeJoinRest(t[1..]);
        var w, ws := rest[0], rest[1..];
        JoinPrepend(t[0], w, CapitalizeAll(ws), ' ');
      }
    }
  }

  /** A label has the slug's length; hyphens become spaces, and exactly the characters
      that start a word (first, or after a hyphen or space) are upper-cased. */
  lemma LabelAt(raw: string)
    ensures |Label(raw)| == |raw|
    ensures forall i {:trigger Label(raw)[i]} :: 0 <= i < |raw| ==>
      Label(raw)[i] == (if raw[i] == '-' then ' '
                        else if i == 0 || raw[i - 1] == '-' || raw[i - 1] == ' ' then UpperChar(raw[i])
                        else raw[i])
  {
    var t := ReplaceChar(raw, '-', ' ');
    CapitalizeJoinFirst(t);
    forall i {:trigger Label(raw)[i]} | 0 <= i < |raw|
      ensures Label(raw)[i] == (if raw[i] == '-' then ' '
                                else if i == 0 || raw[i - 1] == '-' || raw[i - 1] == ' ' then UpperChar(raw[i])
                                else raw[i])
    {
      assert Label(raw)[i] == CapitalizeWordStarts(t, true)[i];
      assert i > 0 ==> (t[i - 1] == ' ' <==> raw[i - 1] == '-' || raw[i - 1] == ' ');
    }
    assert |Label(raw)| == |raw|;
  }

  /** No label contains a hyphen. */
  lemma LabelHasNoHyphen(raw: string)
    ensures '-' !in Label(raw)
  {
    LabelAt(raw);
    forall i | 0 <= i < |Label(raw)| ensures Label(raw)[i] != '-' {
      assert 0 <= i < |raw|;
      assert Label(raw)[i] == (if raw[i] == '-' then ' '
                               else if i == 0 || raw[i - 1] == '-' || raw[i - 1] == ' ' then UpperChar(raw[i])
                               else raw[i]);
    }
  }

  // ---------------------------------------------------------------------------
  // The page's figures

  /** `getCrimesByCategory`: one bar per distinct category in first-seen order,
      labelled with its formatted name, its height the number of crimes in it. */
  method CrimesByCategory(crimes: seq<Crime>) returns (chart: seq<Entry>)
    ensures var keys := Distinct(Categories(crimes));
      && |chart| == |keys|
      && forall i :: 0 <= i < |chart| ==>
        chart[i] == Entry(Label(keys[i]), multiset(Categories(crimes))[keys[i]])
    ensures |chart| == |set k | k in Categories(crimes)|
    ensures forall i :: 0 <= i < |chart| ==> chart[i].value >= 1
    ensures Total(chart) == |crimes|
  {
    var cats := Categories(crimes);
    var order, counts := Tally(cats);
    chart := seq(|order|, i requires 0 <= i < |order| => Entry(Label(order[i]), counts[order[i]]));
    DistinctCard(cats);
    TotalOfTally(chart, order, multiset(cats));
    CountSumDistinct(cats);
  }

  /** `getOutcomeStatistics`: one bucket per distinct outcome in first-seen order, with its count. */
  method OutcomeStatistics(crimes: seq<Crime>) returns (buckets: seq<Entry>)
    ensures var keys := Distinct(Outcomes(crimes));
      && |buckets| == |keys|
      && forall i :: 0 <= i < |buckets| ==>
        buckets[i] == Entry(keys[i], multiset(Outcomes(crimes))[keys[i]])
    ensures forall i :: 0 <= i < |buckets| ==> buckets[i].value >= 1
    ensures Total(buckets) == |crimes|
  {
    var outcomes := Outcomes(crimes);
    var order, counts := Tally(outcomes);
    buckets := seq(|order|, i requires 0 <= i < |order| => Entry(order[i], counts[order[i]]));
    TotalOfTally(buckets, order, multiset(outcomes));
    CountSumDistinct(outcomes);
  }

  /** A crime counts as solved when it has an outcome with a non-empty category. A solved crime
      goes to the bucket its outcome names; every other crime is under investigation. */
  function Solved(c: Crime): (b: bool)
    ensures b ==> c.outcomeStatus.Some? && OutcomeOf(c) == c.outcomeStatus.value.category
    ensures !b ==> OutcomeOf(c) == UnderInvestigation
  {
    c.outcomeStatus.Some? && c.outcomeStatus.value.category != ""
  }

  /** The "Solved Cases" figure. */
  function SolvedCount(crimes: seq<Crime>): (n: nat)
    ensures n <= |crimes|
  {
    |Filter(crimes, Solved)|
  }

  /** The "Under Investigation" bucket holds the unsolved crimes, plus the solved crimes whose
      outcome is literally named "Under Investigation". */
  lemma {:induction false} UnderInvestigationBucket(crimes: seq<Crime>)
    ensures multiset(Outcomes(crimes))[UnderInvestigation] ==
      (|crimes| - SolvedCount(crimes))
      + |Filter(crimes, c => Solved(c) && c.outcomeStatus.value.category == UnderInvestigation)|
  {
    if crimes != [] {
      var init := crimes[..|crimes| - 1];
      var c := crimes[|crimes| - 1];
      assert crimes == init + [c];
      assert Outcomes(crimes) == Outcomes(init) + [OutcomeOf(c)];
      UnderInvestigationBucket(init);
      FilterAppend(init, [c], Solved);
      FilterAppend(init, [c], c => Solved(c) && c.outcomeStatus.value.category == UnderInvestigation);
    }
  }

  /** Solved and unsolved crimes together are all the crimes. */
  lemma SolvedPartition(crimes: seq<Crime>)
    ensures SolvedCount(crimes) + |Filter(crimes, c => !Solved(c))| == |crimes|
  {
    FilterPartition(crimes, Solved, c => !Solved(c));
  }
}
