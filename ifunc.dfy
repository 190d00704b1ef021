/**
 * The IFUNC delay component: timing noise given as a table of
 * (epoch, delay) pairs held by the parameters IFUNC1, IFUNC2, ..., IFUNCn.
 *
 * Life cycle: the component is built with the parameters the parameter file
 * declared (keyed by their index); Setup checks that the indices form the run
 * 1..n and records n; PrintPar writes the parameters back in index order;
 * IfuncDelay gives, for every query time, minus the table value interpolated
 * linearly at that time.
 */
module IFuncComponent {
  import opened Wrappers
  import opened IndexSets
  import opened ParNames
  import opened Interpolation

  /** The pair held by one IFUNC<k> parameter: an epoch (MJD) and a delay (seconds). */
  datatype Term = Term(mjd: real, value: real)

  /** What setup raises when the family is not a contiguous run. */
  datatype SetupError =
    | MissingParameter(component: string, name: string)  // MissingParameter("IFunc", "IFUNC<k>")
    | EmptyIndexSet                                        // max() of an empty list (ValueError)
    | NoMissingIndex                                       // diff[0] of an empty list (IndexError)

  /** "IFUNC%d" % k */
  function IfuncName(k: nat): string
  {
    PrefixName("IFUNC", k)
  }

  // ---------------------------------------------------------------------------
  // Contiguity of the discovered indices (setup)
  // ---------------------------------------------------------------------------

  /**
   * The results setup can produce for the set of discovered indices. The
   * sorted indices must equal range(1, max + 1); otherwise setup reports
   * diff[0], the first element of the set of missing indices in the order
   * Python's set iteration gives, which the model does not fix: any missing
   * index may be the one reported.
   */
  ghost predicate SetupResult(keys: set<int>, r: Result<nat, SetupError>)
  {
    if keys == {} then r == Failure(EmptyIndexSet)
    else
      var top := SetMax(keys);
      var missing := Range(1, top) - keys;
      if keys == Range(1, top) then r == Success(|keys|)
      else if missing == {} then r == Failure(NoMissingIndex)
      else exists k: nat :: k in missing && r == Failure(MissingParameter("IFunc", IfuncName(k)))
  }

  /**
   * Setup succeeds exactly when the indices are 1..m for m the number of
   * indices; the recorded count is then both that number and the largest index.
   */
  lemma SetupSucceedsIff(keys: set<int>, r: Result<nat, SetupError>)
    requires SetupResult(keys, r)
    ensures r.Success? <==> keys != {} && keys == Range(1, |keys|)
    ensures r.Success? ==> r.value == |keys| == SetMax(keys) && |keys| >= 1
  {
    if keys != {} {
      var top := SetMax(keys);
      if keys == Range(1, top) {
        RangeSize(top);
      }
      if keys == Range(1, |keys|) {
        assert |keys| in keys;
        assert SetMax(keys) == |keys|;
      }
    }
  }

  /**
   * With positive indices (as parsed from names IFUNC<k>), a set that is not
   * a run 1..m makes setup raise MissingParameter("IFunc", "IFUNC<k>") for an
   * index k in 1..max that was not discovered.
   */
  lemma SetupReportsGap(keys: set<int>, r: Result<nat, SetupError>)
    requires SetupResult(keys, r)
    requires keys != {}
    requires forall k :: k in keys ==> k >= 1
    requires keys != Range(1, |keys|)
    ensures r.Failure? && r.error.MissingParameter? && r.error.component == "IFunc"
    ensures exists k: nat :: r.error.name == IfuncName(k) && 1 <= k <= SetMax(keys) && k !in keys
  {
    SetupSucceedsIff(keys, r);
    var top := SetMax(keys);
    var missing := Range(1, top) - keys;
    assert keys <= Range(1, top);
    assert keys != Range(1, top);
    var k: nat :| k in missing && r == Failure(MissingParameter("IFunc", IfuncName(k)));
    assert 1 <= k <= top && k !in keys;
  }

  /** Removing one non-final member from a run 1..n makes setup name exactly that member. */
  lemma SetupNamesRemovedIndex(n: nat, k: nat, r: Result<nat, SetupError>)
    requires 1 <= k < n
    requires SetupResult(Range(1, n) - {k}, r)
    ensures r == Failure(MissingParameter("IFunc", IfuncName(k)))
  {
    var keys := Range(1, n) - {k};
    assert n in keys;
    var top := SetMax(keys);
    assert top == n;
    var missing := Range(1, top) - keys;
    assert k in missing;
    assert missing == {k};
    assert keys != Range(1, top);
  }

  /** An index 0 beside a complete run 1..max leaves nothing to report: diff[0] fails. */
  lemma SetupIndexZero(r: Result<nat, SetupError>)
    requires SetupResult({0, 1, 2}, r)
    ensures r == Failure(NoMissingIndex)
  {
    var keys: set<int> := {0, 1, 2};
    assert 2 in keys;
    assert SetMax(keys) == 2;
    assert 0 !in Range(1, 2);
    assert Range(1, 2) == {1, 2};
    assert keys != Range(1, 2);
    assert Range(1, 2) - keys == {};
  }

  /**
   * The check of setup on the discovered indices: sort them, compare with
   * range(1, max + 1), and on a mismatch report an index of the difference.
   */
  method CheckContiguity(keys: set<int>) returns (r: Result<nat, SetupError>)
    ensures SetupResult(keys, r)
  {
    var ifuncTerms := SortedIndices(keys);
    ElemsEmpty(ifuncTerms);
    if ifuncTerms == [] {
      return Failure(EmptyIndexSet);
    }
    var top := ifuncTerms[|ifuncTerms| - 1];
    LastIsMax(ifuncTerms);
    var ifuncInOrder := InOrder(top);
    InOrderShape(top);
    if ifuncTerms != ifuncInOrder {
      if keys == Range(1, top) {
        IncreasingUnique(ifuncTerms, ifuncInOrder);
      }
      var diff := Elems(ifuncInOrder) - Elems(ifuncTerms);
      if diff == {} {
        return Failure(NoMissingIndex);
      }
      Witness(diff);
      var k :| k in diff;
      return Failure(MissingParameter("IFunc", IfuncName(k)));
    }
    r := Success(|ifuncTerms|);
    RangeSize(top);
  }

  // ---------------------------------------------------------------------------
  // Parameter-file text (print_par)
  // ---------------------------------------------------------------------------

  /** Every index 1..n has a parameter. */
  predicate HasTerms(terms: map<int, Term>, n: nat)
  {
    forall k :: 1 <= k <= n ==> k in terms
  }

  /** The parameter-file lines of IFUNC1..IFUNCn, in index order. */
  function ParLines(terms: map<int, Term>, n: nat, line: (int, Term) -> string): seq<string>
    requires HasTerms(terms, n)
  {
    if n == 0 then [] else ParLines(terms, n - 1, line) + [line(n, terms[n])]
  }

  /** The strings of a list written one after the other. */
  function Concat(ss: seq<string>): string
  {
    if ss == [] then "" else Concat(ss[..|ss| - 1]) + ss[|ss| - 1]
  }

  /** The list of lines has one entry per index: entry k - 1 is the line of IFUNC<k>. */
  lemma {:induction false} ParLinesAt(terms: map<int, Term>, n: nat, line: (int, Term) -> string, k: nat)
    requires HasTerms(terms, n) && 1 <= k <= n
    ensures |ParLines(terms, n, line)| == n
    ensures ParLines(terms, n, line)[k - 1] == line(k, terms[k])
  {
    if k < n {
      ParLinesAt(terms, n - 1, line, k);
    } else {
      ParLinesLength(terms, n - 1, line);
    }
  }

  lemma {:induction false} ParLinesLength(terms: map<int, Term>, n: nat, line: (int, Term) -> string)
    requires HasTerms(terms, n)
    ensures |ParLines(terms, n, line)| == n
  {
    if n > 0 {
      ParLinesLength(terms, n - 1, line);
    }
  }

  /** Writing two lists one after the other writes their texts one after the other. */
  lemma {:induction false} ConcatAppend(a: seq<string>, b: seq<string>)
    ensures Concat(a + b) == Concat(a) + Concat(b)
    decreases |b|
  {
    if b != [] {
      var b' := b[..|b| - 1];
      assert (a + b)[..|a + b| - 1] == a + b';
      ConcatAppend(a, b');
    } else {
      assert a + b == a;
    }
  }

  /** Entry i of a list occupies the text right after the text of entries 0..i-1. */
  lemma ConcatPlacesEntry(ss: seq<string>, i: nat)
    requires i < |ss|
    ensures var off := |Concat(ss[..i])|;
            off + |ss[i]| <= |Concat(ss)| && Concat(ss)[off .. off + |ss[i]|] == ss[i]
  {
    assert ss == ss[..i + 1] + ss[i + 1..];
    ConcatAppend(ss[..i + 1], ss[i + 1..]);
    assert ss[..i + 1][..i] == ss[..i];
  }

  /**
   * The text print_par writes holds the line of IFUNC<k> right after the
   * lines of IFUNC1..IFUNC<k-1>: each term once, in increasing index order.
   */
  lemma PrintParOrder(terms: map<int, Term>, n: nat, line: (int, Term) -> string, k: nat)
    requires HasTerms(terms, n) && 1 <= k <= n
    ensures var text := Concat(ParLines(terms, n, line));
            var off := |Concat(ParLines(terms, k - 1, line))|;
            off + |line(k, terms[k])| <= |text| && text[off .. off + |line(k, terms[k])|] == line(k, terms[k])
  {
    var ls := ParLines(terms, n, line);
    ParLinesAt(terms, n, line, k);
    ParLinesPrefix(terms, n, line, k - 1);
    ConcatPlacesEntry(ls, k - 1);
  }

  /** The first j lines of IFUNC1..IFUNCn are the lines of IFUNC1..IFUNCj. */
  lemma {:induction false} ParLinesPrefix(terms: map<int, Term>, n: nat, line: (int, Term) -> string, j: nat)
    requires HasTerms(terms, n) && j <= n
    ensures |ParLines(terms, n, line)| == n
    ensures ParLines(terms, n, line)[..j] == ParLines(terms, j, line)
    decreases n
  {
    ParLinesLength(terms, n, line);
    if j < n {
      ParLinesPrefix(terms, n - 1, line, j);
      ParLinesLength(terms, n - 1, line);
      assert ParLines(terms, n, line)[..j] == ParLines(terms, n - 1, line)[..j];
    }
  }

  // ---------------------------------------------------------------------------
  // The delay table (ifunc_delay)
  // ---------------------------------------------------------------------------

  /** The epochs of IFUNC1..IFUNCn, in index order. */
  function TableEpochs(terms: map<int, Term>, n: nat): seq<real>
    requires HasTerms(terms, n)
  {
    seq(n, i requires 0 <= i < n => terms[i + 1].mjd)
  }

  /** The delay values of IFUNC1..IFUNCn, in index order. */
  function TableValues(terms: map<int, Term>, n: nat): seq<real>
    requires HasTerms(terms, n)
  {
    seq(n, i requires 0 <= i < n => terms[i + 1].value)
  }

  /** A table that numpy's interp can use: non-empty, epochs ascending in index order. */
  predicate AscendingTable(terms: map<int, Term>, n: nat)
  {
    n >= 1 && HasTerms(terms, n) && StrictlyAscending(TableEpochs(terms, n))
  }

  /** The delay at time t: minus the table value interpolated at t. */
  function DelayAt(terms: map<int, Term>, n: nat, t: real): real
    requires AscendingTable(terms, n)
  {
    -Interp(t, TableEpochs(terms, n), TableValues(terms, n))
  }

  /** At the epoch of IFUNC<k> the delay is minus its value. */
  lemma DelayAtEpoch(terms: map<int, Term>, n: nat, k: nat)
    requires AscendingTable(terms, n) && 1 <= k <= n
    ensures DelayAt(terms, n, terms[k].mjd) == -terms[k].value
  {
    InterpAtNode(TableEpochs(terms, n), TableValues(terms, n), k - 1);
  }

  /** Before the epoch of IFUNC1 and after that of IFUNCn the edge value is held. */
  lemma DelayFlatOutside(terms: map<int, Term>, n: nat, t: real)
    requires AscendingTable(terms, n)
    ensures t <= terms[1].mjd ==> DelayAt(terms, n, t) == -terms[1].value
    ensures t >= terms[n].mjd ==> DelayAt(terms, n, t) == -terms[n].value
  {
    InterpFlatOutside(t, TableEpochs(terms, n), TableValues(terms, n));
  }

  /**
   * Strictly between the epochs of IFUNC<k> and IFUNC<k+1> the delay is the
   * negated straight line through the two, and lies between their negated values.
   */
  lemma DelayBetweenEpochs(terms: map<int, Term>, n: nat, k: nat, t: real)
    requires AscendingTable(terms, n) && 1 <= k < n
    requires terms[k].mjd < t < terms[k + 1].mjd
    ensures var e0, e1, v0, v1 := terms[k].mjd, terms[k + 1].mjd, terms[k].value, terms[k + 1].value;
            && DelayAt(terms, n, t) == -Line(t, e0, e1, v0, v1)
            && (v0 <= v1 ==> -v1 <= DelayAt(terms, n, t) <= -v0)
            && (v1 <= v0 ==> -v0 <= DelayAt(terms, n, t) <= -v1)
  {
    var xp, fp := TableEpochs(terms, n), TableValues(terms, n);
    assert xp[k - 1] == terms[k].mjd && xp[k] == terms[k + 1].mjd;
    assert fp[k - 1] == terms[k].value && fp[k] == terms[k + 1].value;
    InterpBetween(t, xp, fp, k - 1);
    InterpBetweenBounds(t, xp, fp, k - 1);
    assert DelayAt(terms, n, t) == -Interp(t, xp, fp);
  }

  /** The table IFUNC1 = (0, 1), IFUNC2 = (10, 3): delays -2 at 5, -1 at -5 and -3 at 15. */
  lemma DelayExample()
    ensures var terms := map[1 := Term(0.0, 1.0), 2 := Term(10.0, 3.0)];
            && AscendingTable(terms, 2)
            && DelayAt(terms, 2, 5.0) == -2.0
            && DelayAt(terms, 2, -5.0) == -1.0
            && DelayAt(terms, 2, 15.0) == -3.0
  {
    var terms := map[1 := Term(0.0, 1.0), 2 := Term(10.0, 3.0)];
    assert TableEpochs(terms, 2) == [0.0, 10.0];
    assert TableValues(terms, 2) == [1.0, 3.0];
    InterpExample();
  }

  // ---------------------------------------------------------------------------
  // The component
  // ---------------------------------------------------------------------------

  class IFunc {
    /** The IFUNC<k> parameters the component holds, by index k. */
    var terms: map<int, Term>
    /** The number of terms, recorded by a successful setup (absent before). */
    var numIfuncTerms: Option<nat>
    /** The query times of the last delay evaluation. */
    var barycentricTime: seq<real>

    const category: string := "ifunc"

    /** A recorded count n is at least 1 and the parameters are exactly IFUNC1..IFUNCn. */
    ghost predicate Valid()
      reads this
    {
      numIfuncTerms.Some? ==> numIfuncTerms.value >= 1 && terms.Keys == Range(1, numIfuncTerms.value)
    }

    /** Set up successfully: ready for print_par and the delay. */
    ghost predicate Ready()
      reads this
    {
      Valid() && numIfuncTerms.Some?
    }

    constructor (discovered: map<int, Term>)
      ensures Valid()
      ensures terms == discovered && numIfuncTerms == None && barycentricTime == []
    {
      terms := discovered;
      numIfuncTerms := None;
      barycentricTime := [];
    }

    /**
     * setup: checks that the parameters are IFUNC1..IFUNCn and records n;
     * on failure nothing changes.
     */
    method Setup() returns (r: Result<nat, SetupError>)
      requires Valid()
      modifies this`numIfuncTerms
      ensures Valid()
      ensures SetupResult(terms.Keys, r)
      ensures r.Success? <==> terms.Keys != {} && terms.Keys == Range(1, |terms.Keys|)
      ensures numIfuncTerms == if r.Success? then Some(|terms.Keys|) else old(numIfuncTerms)
    {
      r := CheckContiguity(terms.Keys);
      SetupSucceedsIff(terms.Keys, r);
      if r.Success? {
        numIfuncTerms := Some(r.value);
      }
    }

    /** print_par: the parameter-file lines of IFUNC1..IFUNCn, one after the other. */
    method PrintPar(line: (int, Term) -> string) returns (result: string)
      requires Ready()
      ensures HasTerms(terms, numIfuncTerms.value)
      ensures result == Concat(ParLines(terms, numIfuncTerms.value, line))
    {
      var n := numIfuncTerms.value;
      result := "";
      var ii := 1;
      while ii <= n
        invariant 1 <= ii <= n + 1
        invariant result == Concat(ParLines(terms, ii - 1, line))
      {
        result := result + line(ii, terms[ii]);
        ii := ii + 1;
      }
    }

    /** The two parallel arrays of ifunc_delay: epochs and values of IFUNC1..IFUNCn. */
    method BuildTable() returns (ifuncMjd: seq<real>, ifuncV: seq<real>)
      requires Ready()
      ensures |ifuncMjd| == |ifuncV| == numIfuncTerms.value
      ensures forall i :: 0 <= i < |ifuncMjd| ==>
                i + 1 in terms && ifuncMjd[i] == terms[i + 1].mjd && ifuncV[i] == terms[i + 1].value
    {
      var n := numIfuncTerms.value;
      ifuncMjd, ifuncV := [], [];
      var ii := 1;
      while ii <= n
        invariant 1 <= ii <= n + 1
        invariant |ifuncMjd| == |ifuncV| == ii - 1
        invariant forall i :: 0 <= i < ii - 1 ==>
                    i + 1 in terms && ifuncMjd[i] == terms[i + 1].mjd && ifuncV[i] == terms[i + 1].value
      {
        var ft := terms[ii];
        ifuncMjd := ifuncMjd + [ft.mjd];
        ifuncV := ifuncV + [ft.value];
        ii := ii + 1;
      }
    }

    /**
     * ifunc_delay: one delay per query time, in the order of the times, each
     * minus the table interpolated at that time; records the times.
     */
    method IfuncDelay(times: seq<real>) returns (delays: seq<real>)
      requires Ready()
      requires StrictlyAscending(TableEpochs(terms, numIfuncTerms.value))
      modifies this`barycentricTime
      ensures barycentricTime == times
      ensures AscendingTable(terms, numIfuncTerms.value)
      ensures |delays| == |times|
      ensures forall i :: 0 <= i < |times| ==> delays[i] == DelayAt(terms, numIfuncTerms.value, times[i])
    {
      barycentricTime := times;
      var ifuncMjd, ifuncV := BuildTable();
      var n := numIfuncTerms.value;
      assert ifuncMjd == TableEpochs(terms, n);
      assert ifuncV == TableValues(terms, n);
      delays := seq(|times|, i requires 0 <= i < |times| => -Interp(times[i], ifuncMjd, ifuncV));
    }
  }
}
