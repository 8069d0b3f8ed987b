/** The land-cover transition script: two aligned integer rasters are read
    block by block; every pixel's from/to pair is counted in a nested
    dictionary that is kept rectangular, every changed pair gets a
    transition code (1, 2, 3, ... in first-seen order, 0 for unchanged
    pixels, -1 where both inputs are nodata), and at the end two tables
    are written: the transition matrix and the code legend. */
module LulcTransition {
  import opened Wrappers
  import opened Strings
  import opened Ranges

  /** The nodata value of the transition raster. */
  const TargetNodata: int := -1
  /** The code of a pixel whose class does not change. */
  const UnchangedCode: int := 0

  // ---------------------------------------------------------------------
  // Nodata masks

  /** `array_equals_nodata` on an integer block: nothing matches an unset
      nodata value, otherwise a pixel matches when it equals it. */
  function ArrayEqualsNodata(a: array2<int>, nodata: Option<int>): (m: seq<seq<bool>>)
    reads a
    ensures |m| == a.Length0 && forall i :: 0 <= i < |m| ==> |m[i]| == a.Length1
    ensures nodata.None? ==> forall i, j :: 0 <= i < |m| && 0 <= j < |m[i]| ==> !m[i][j]
    ensures nodata.Some? ==>
      forall i, j :: 0 <= i < |m| && 0 <= j < |m[i]| ==> (m[i][j] <==> a[i, j] == nodata.value)
  {
    if nodata.None? then
      seq(a.Length0, i => seq(a.Length1, j => false))
    else
      seq(a.Length0, i requires 0 <= i < a.Length0 reads a =>
        seq(a.Length1, j requires 0 <= j < a.Length1 reads a => a[i, j] == nodata.value))
  }

  // ---------------------------------------------------------------------
  // Transition labels

  /** The key `f'{from} to {to}'` under which a changed pair is recorded. */
  function Label(f: int, t: int): string
  {
    IntStr(f) + " to " + IntStr(t)
  }

  /** A separator whose first character `x` lacks occurs first at `|x|`. */
  lemma SeparatorAt(x: string, sep: string, u: string)
    requires |sep| > 0 && sep[0] !in x
    ensures (x + sep + u)[|x|] == sep[0]
    ensures forall i :: 0 <= i < |x| ==> (x + sep + u)[i] != sep[0]
  {
    forall i | 0 <= i < |x|
      ensures (x + sep + u)[i] != sep[0]
    {
      assert (x + sep + u)[i] == x[i];
    }
  }

  lemma SeparatedUnique(x: string, u: string, y: string, v: string, sep: string)
    requires |sep| > 0 && sep[0] !in x && sep[0] !in y
    requires x + sep + u == y + sep + v
    ensures x == y && u == v
  {
    SeparatorAt(x, sep, u);
    SeparatorAt(y, sep, v);
    var s := x + sep + u;
    assert |x| == |y|;
    assert x == s[..|x|] && y == (y + sep + v)[..|y|];
    assert u == s[|x| + |sep|..] && v == (y + sep + v)[|y| + |sep|..];
  }

  /** Distinct pairs have distinct labels: a label names one pair. */
  lemma LabelInjective(a: int, b: int, c: int, d: int)
    requires Label(a, b) == Label(c, d)
    ensures a == c && b == d
  {
    IntStrChars(a, ' ');
    IntStrChars(c, ' ');
    SeparatedUnique(IntStr(a), IntStr(b), IntStr(c), IntStr(d), " to ");
    IntStrInjective(a, c);
    IntStrInjective(b, d);
  }

  // ---------------------------------------------------------------------
  // The code tables as functions of the pixels seen so far

  type Pair = (int, int)

  predicate Distinct<T(==)>(s: seq<T>)
  {
    forall i, j :: 0 <= i < j < |s| ==> s[i] != s[j]
  }

  /** The changed pairs among `s`, each once, in the order they first
      appear: the pairs that receive codes 1, 2, 3, ... */
  function Changes(s: seq<Pair>): seq<Pair>
  {
    if s == [] then []
    else
      var ps := Changes(s[..|s| - 1]);
      var p := s[|s| - 1];
      if p.0 != p.1 && p !in ps then ps + [p] else ps
  }

  /** Each changed pair of `s` occurs once among the changes, and nothing else does. */
  lemma {:induction false} ChangesMembers(s: seq<Pair>)
    ensures Distinct(Changes(s))
    ensures forall p :: p in Changes(s) <==> p in s && p.0 != p.1
  {
    if s != [] {
      var q := s[..|s| - 1];
      assert s == q + [s[|s| - 1]];
      ChangesMembers(q);
    }
  }

  /** Later pixels never renumber earlier pairs. */
  lemma {:induction false} ChangesPrefix(s: seq<Pair>, t: seq<Pair>)
    ensures Changes(s) <= Changes(s + t)
    decreases |t|
  {
    if t != [] {
      var u := s + t[..|t| - 1];
      assert s + t == u + [t[|t| - 1]];
      assert (s + t)[..|s + t| - 1] == u;
      ChangesPrefix(s, t[..|t| - 1]);
      assert s + t[..|t| - 1] == u;
      ChangesAppend(u, t[|t| - 1]);
      PrefixTransitive(Changes(s), Changes(u), Changes(s + t));
    } else {
      assert s + t == s;
    }
  }

  lemma PrefixTransitive(a: seq<Pair>, b: seq<Pair>, c: seq<Pair>)
    requires a <= b && b <= c
    ensures a <= c
  {
    assert forall i :: 0 <= i < |a| ==> a[i] == b[i] == c[i];
  }

  /** One more pixel adds its pair to the changes exactly when it changes
      and is new. */
  lemma ChangesAppend(s: seq<Pair>, p: Pair)
    ensures Changes(s + [p]) == if p.0 != p.1 && p !in Changes(s) then Changes(s) + [p] else Changes(s)
  {
    assert (s + [p])[..|s + [p]| - 1] == s;
  }

  /** `transition_str_dict`, keyed by the pair itself: the k-th changed
      pair maps to k+1.  `LabelTableAgrees` shows that keying it by the
      pair's label, as the script does, gives the same lookups. */
  function CodeTable(ps: seq<Pair>): map<Pair, int>
  {
    if ps == [] then map[]
    else CodeTable(ps[..|ps| - 1])[ps[|ps| - 1] := |ps|]
  }

  /** `transition_str_dict` with the script's keys, the labels. */
  function LabelTable(ps: seq<Pair>): map<string, int>
  {
    if ps == [] then map[]
    else LabelTable(ps[..|ps| - 1])[Label(ps[|ps| - 1].0, ps[|ps| - 1].1) := |ps|]
  }

  /** An entry of `transition_class_key`: `"unchanged"` for code 0, the
      label of a pair for every other code.  The entry keeps the pair and
      `LegendText` gives its text. */
  datatype Legend = Unchanged | Transition(from: int, to: int)

  function LegendText(l: Legend): string
  {
    match l
    case Unchanged => "unchanged"
    case Transition(f, t) => Label(f, t)
  }

  /** `transition_class_key`: 0 maps to "unchanged" and k+1 to the label of
      the k-th changed pair. */
  function ClassKey(ps: seq<Pair>): map<int, Legend>
  {
    if ps == [] then map[UnchangedCode := Unchanged]
    else ClassKey(ps[..|ps| - 1])[|ps| := Transition(ps[|ps| - 1].0, ps[|ps| - 1].1)]
  }

  /** A pair is recorded exactly when it is among `ps`. */
  lemma {:induction false} CodeTableKeys(ps: seq<Pair>)
    ensures forall p :: p in CodeTable(ps) <==> p in ps
  {
    if ps != [] {
      var q := ps[..|ps| - 1];
      assert ps == q + [ps[|ps| - 1]];
      CodeTableKeys(q);
    }
  }

  /** Codes are handed out consecutively from 1 in first-seen order, one
      per distinct pair, so the same pair always gets the same code. */
  lemma {:induction false} CodeTableValues(ps: seq<Pair>)
    requires Distinct(ps)
    ensures forall k :: 0 <= k < |ps| ==> ps[k] in CodeTable(ps) && CodeTable(ps)[ps[k]] == k + 1
  {
    CodeTableKeys(ps);
    if ps != [] {
      var q := ps[..|ps| - 1];
      CodeTableValues(q);
      forall k | 0 <= k < |ps| - 1
        ensures CodeTable(ps)[ps[k]] == k + 1
      {
        assert ps[k] == q[k];
      }
    }
  }

  /** Every code in the table lies in `1..|ps|`. */
  lemma {:induction false} CodeTableRange(ps: seq<Pair>)
    ensures forall p :: p in CodeTable(ps) ==> 1 <= CodeTable(ps)[p] <= |ps|
  {
    if ps != [] {
      CodeTableRange(ps[..|ps| - 1]);
    }
  }

  /** Keying by label and keying by pair agree: a label is recorded exactly
      when its pair is, and under the same code.  This rests on labels
      naming one pair each. */
  lemma {:induction false} LabelTableAgrees(ps: seq<Pair>)
    ensures forall p: Pair :: Label(p.0, p.1) in LabelTable(ps) <==> p in CodeTable(ps)
    ensures forall p :: p in CodeTable(ps) ==> LabelTable(ps)[Label(p.0, p.1)] == CodeTable(ps)[p]
  {
    if ps != [] {
      var q := ps[..|ps| - 1];
      var last := ps[|ps| - 1];
      LabelTableAgrees(q);
      forall p: Pair | Label(p.0, p.1) in LabelTable(ps) || p in CodeTable(ps)
        ensures Label(p.0, p.1) in LabelTable(ps) && p in CodeTable(ps)
        ensures LabelTable(ps)[Label(p.0, p.1)] == CodeTable(ps)[p]
      {
        if Label(p.0, p.1) == Label(last.0, last.1) {
          LabelInjective(p.0, p.1, last.0, last.1);
        }
      }
    }
  }

  /** Every key of the label table is the label of a recorded pair. */
  lemma {:induction false} RecordedLabel(ps: seq<Pair>, key: string)
    requires key in LabelTable(ps)
    ensures exists p :: p in ps && Label(p.0, p.1) == key
  {
    var q := ps[..|ps| - 1];
    var last := ps[|ps| - 1];
    if key != Label(last.0, last.1) {
      RecordedLabel(q, key);
      var p :| p in q && Label(p.0, p.1) == key;
      assert p in ps;
    }
  }

  lemma {:induction false} ClassKeyLookup(ps: seq<Pair>)
    ensures forall k :: k in ClassKey(ps) <==> 0 <= k <= |ps|
    ensures ClassKey(ps)[UnchangedCode] == Unchanged
    ensures forall k :: 0 <= k < |ps| ==> ClassKey(ps)[k + 1] == Transition(ps[k].0, ps[k].1)
  {
    if ps != [] {
      var q := ps[..|ps| - 1];
      ClassKeyLookup(q);
      forall k | 0 <= k < |ps| - 1
        ensures ClassKey(ps)[k + 1] == Transition(ps[k].0, ps[k].1)
      {
        assert ps[k] == q[k];
      }
    }
  }

  /** The legend inverts the script's code table: every recorded label's
      code is legend-mapped back to that label, and every legend entry but
      0 is the label whose code it is. */
  lemma CodesInverse(ps: seq<Pair>)
    requires Distinct(ps)
    ensures forall key :: key in LabelTable(ps) ==>
      LabelTable(ps)[key] in ClassKey(ps) && LegendText(ClassKey(ps)[LabelTable(ps)[key]]) == key
    ensures forall c :: c in ClassKey(ps) && c != UnchangedCode ==>
      LegendText(ClassKey(ps)[c]) in LabelTable(ps) && LabelTable(ps)[LegendText(ClassKey(ps)[c])] == c
  {
    CodeTableKeys(ps);
    CodeTableValues(ps);
    LabelTableAgrees(ps);
    ClassKeyLookup(ps);
    forall key | key in LabelTable(ps)
      ensures LabelTable(ps)[key] in ClassKey(ps) && LegendText(ClassKey(ps)[LabelTable(ps)[key]]) == key
    {
      RecordedLabel(ps, key);
      var p :| p in ps && Label(p.0, p.1) == key;
      var k :| 0 <= k < |ps| && ps[k] == p;
      assert LabelTable(ps)[key] == k + 1;
    }
    forall c | c in ClassKey(ps) && c != UnchangedCode
      ensures LegendText(ClassKey(ps)[c]) in LabelTable(ps) && LabelTable(ps)[LegendText(ClassKey(ps)[c])] == c
    {
      assert ClassKey(ps)[(c - 1) + 1] == Transition(ps[c - 1].0, ps[c - 1].1);
    }
  }

  /** What the tables say about a pair before its pixel is coded. */
  lemma CodeLookup(ps: seq<Pair>, f: int, t: int)
    requires Distinct(ps)
    ensures UnchangedCode in ClassKey(ps) && |ps| + 1 !in ClassKey(ps)
    ensures (f, t) in CodeTable(ps) <==> (f, t) in ps
    ensures (f, t) in ps ==> CodeTable(ps)[(f, t)] in ClassKey(ps)
  {
    CodeTableKeys(ps);
    CodeTableRange(ps);
    ClassKeyLookup(ps);
  }

  /** How the tables grow when a new pair is coded. */
  lemma CodeGrow(ps: seq<Pair>, p: Pair)
    ensures CodeTable(ps + [p]) == CodeTable(ps)[p := |ps| + 1]
    ensures ClassKey(ps + [p]) == ClassKey(ps)[|ps| + 1 := Transition(p.0, p.1)]
  {
    assert (ps + [p])[..|ps|] == ps;
  }

  /** The code the tables give a pair: 0 when it does not change. */
  function PairCode(codes: map<Pair, int>, f: int, t: int): int
    requires f == t || (f, t) in codes
  {
    if f == t then UnchangedCode else codes[(f, t)]
  }

  // ---------------------------------------------------------------------
  // Sorting and the count matrix

  lemma SomeValue(s: set<int>)
    requires s != {}
    ensures exists x :: x in s
  {
    if forall x :: x !in s {
      assert false;
    }
  }

  lemma {:induction false} MinExists(s: set<int>)
    requires s != {}
    ensures exists m :: m in s && forall x :: x in s ==> m <= x
    decreases |s|
  {
    SomeValue(s);
    var y :| y in s;
    if s != {y} {
      SomeValue(s - {y});
      MinExists(s - {y});
      var m :| m in s - {y} && forall x :: x in s - {y} ==> m <= x;
      var least := if y < m then y else m;
      forall x | x in s
        ensures least <= x
      {
        if x != y {
          assert x in s - {y};
        }
      }
      assert least in s;
    } else {
      assert forall x :: x in s ==> y <= x;
    }
  }

  /** `min(s)`. */
  function MinOf(s: set<int>): (m: int)
    requires s != {}
    ensures m in s && forall x :: x in s ==> m <= x
  {
    MinExists(s);
    var m :| m in s && forall x :: x in s ==> m <= x;
    m
  }

  predicate Increasing(s: seq<int>)
  {
    forall i, j :: 0 <= i < j < |s| ==> s[i] < s[j]
  }

  /** `sorted(s)` of a set of integers. */
  function SortedValues(s: set<int>): (r: seq<int>)
    ensures Increasing(r)
    ensures forall x :: x in r <==> x in s
    decreases |s|
  {
    if s == {} then []
    else
      var m := MinOf(s);
      [m] + SortedValues(s - {m})
  }

  lemma IncreasingDistinct(s: seq<int>)
    requires Increasing(s)
    ensures Distinct(s)
  {
  }

  /** The ms-count of `(f, t)` for each `t` of `ys`. */
  function CountRow(ms: multiset<Pair>, f: int, ys: seq<int>): (r: seq<nat>)
    ensures |r| == |ys|
  {
    if ys == [] then [] else [ms[(f, ys[0])]] + CountRow(ms, f, ys[1..])
  }

  /** The ms-count of every `(f, t)`, rows for the `f` of `xs`, columns
      for the `t` of `ys`. */
  function CountMatrix(ms: multiset<Pair>, xs: seq<int>, ys: seq<int>): (m: seq<seq<nat>>)
    ensures |m| == |xs|
  {
    if xs == [] then [] else [CountRow(ms, xs[0], ys)] + CountMatrix(ms, xs[1..], ys)
  }

  function Sum(r: seq<nat>): nat
  {
    if r == [] then 0 else r[0] + Sum(r[1..])
  }

  function Total(m: seq<seq<nat>>): nat
  {
    if m == [] then 0 else Sum(m[0]) + Total(m[1..])
  }

  lemma {:induction false} CountRowAdd(ms: multiset<Pair>, p: Pair, f: int, ys: seq<int>)
    requires Distinct(ys)
    ensures Sum(CountRow(ms + multiset{p}, f, ys)) ==
      Sum(CountRow(ms, f, ys)) + (if p.0 == f && p.1 in ys then 1 else 0)
  {
    if ys != [] {
      CountRowAdd(ms, p, f, ys[1..]);
      assert p.1 in ys <==> p.1 == ys[0] || p.1 in ys[1..];
      assert p.1 == ys[0] ==> p.1 !in ys[1..];
    }
  }

  lemma {:induction false} CountMatrixAdd(ms: multiset<Pair>, p: Pair, xs: seq<int>, ys: seq<int>)
    requires Distinct(xs) && Distinct(ys)
    ensures Total(CountMatrix(ms + multiset{p}, xs, ys)) ==
      Total(CountMatrix(ms, xs, ys)) + (if p.0 in xs && p.1 in ys then 1 else 0)
  {
    if xs != [] {
      CountRowAdd(ms, p, xs[0], ys);
      CountMatrixAdd(ms, p, xs[1..], ys);
      assert p.0 in xs <==> p.0 == xs[0] || p.0 in xs[1..];
      assert p.0 == xs[0] ==> p.0 !in xs[1..];
    }
  }

  /** When every pixel's values are among the rows and columns, the count
      matrix adds up to the number of pixels. */
  lemma {:induction false} CountMatrixTotal(s: seq<Pair>, xs: seq<int>, ys: seq<int>)
    requires Distinct(xs) && Distinct(ys)
    requires forall k :: 0 <= k < |s| ==> s[k].0 in xs && s[k].1 in ys
    ensures Total(CountMatrix(multiset(s), xs, ys)) == |s|
  {
    if s == [] {
      EmptyTotal(xs, ys);
    } else {
      var q := s[..|s| - 1];
      assert s == q + [s[|s| - 1]];
      assert multiset(s) == multiset(q) + multiset{s[|s| - 1]};
      CountMatrixTotal(q, xs, ys);
      CountMatrixAdd(multiset(q), s[|s| - 1], xs, ys);
    }
  }

  lemma {:induction false} EmptyTotal(xs: seq<int>, ys: seq<int>)
    ensures Total(CountMatrix(multiset{}, xs, ys)) == 0
  {
    if xs != [] {
      EmptyRow(xs[0], ys);
      EmptyTotal(xs[1..], ys);
    }
  }

  lemma {:induction false} EmptyRow(f: int, ys: seq<int>)
    ensures Sum(CountRow(multiset{}, f, ys)) == 0
  {
    if ys != [] {
      EmptyRow(f, ys[1..]);
    }
  }

  lemma {:induction false} CountRowIndex(ms: multiset<Pair>, f: int, ys: seq<int>, j: int)
    requires 0 <= j < |ys|
    ensures CountRow(ms, f, ys)[j] == ms[(f, ys[j])]
  {
    if j > 0 {
      CountRowIndex(ms, f, ys[1..], j - 1);
    }
  }

  lemma {:induction false} CountMatrixIndex(ms: multiset<Pair>, xs: seq<int>, ys: seq<int>, i: int)
    requires 0 <= i < |xs|
    ensures CountMatrix(ms, xs, ys)[i] == CountRow(ms, xs[i], ys)
  {
    if i > 0 {
      CountMatrixIndex(ms, xs[1..], ys, i - 1);
    }
  }

  // ---------------------------------------------------------------------
  // Blocks

  /** `numpy.unique` of a block, as a set. */
  function Values(a: array2<int>): set<int>
    reads a
  {
    set i, j | 0 <= i < a.Length0 && 0 <= j < a.Length1 :: a[i, j]
  }

  lemma ValuesHas(a: array2<int>)
    ensures forall i, j :: 0 <= i < a.Length0 && 0 <= j < a.Length1 ==> a[i, j] in Values(a)
  {
    forall i, j | 0 <= i < a.Length0 && 0 <= j < a.Length1
      ensures a[i, j] in Values(a)
    {
      var v := a[i, j];
    }
  }

  predicate SameShape(a: array2<int>, b: array2<int>)
  {
    a.Length0 == b.Length0 && a.Length1 == b.Length1
  }

  /** The from/to pair of every pixel of a block, row by row. */
  function Pairs(a: array2<int>, b: array2<int>): (g: seq<seq<Pair>>)
    reads a, b
    requires SameShape(a, b)
    ensures |g| == a.Length0 && Rows(g, a.Length1)
    ensures forall i, j :: 0 <= i < |g| && 0 <= j < |g[i]| ==> g[i][j] == (a[i, j], b[i, j])
  {
    seq(a.Length0, i requires 0 <= i < a.Length0 reads a, b =>
      seq(a.Length1, j requires 0 <= j < a.Length1 reads a, b => (a[i, j], b[i, j])))
  }

  /** Every row of `g` has `w` pixels. */
  predicate Rows(g: seq<seq<Pair>>, w: int)
  {
    forall i :: 0 <= i < |g| ==> |g[i]| == w
  }

  /** The first `m` rows of `g` one after another. */
  function Flatten(g: seq<seq<Pair>>, m: int): seq<Pair>
    requires 0 <= m <= |g|
  {
    if m == 0 then [] else Flatten(g, m - 1) + g[m - 1]
  }

  /** The block's pixels in row-major order, the order of the two loops
      of lines 172-173. */
  function BlockPixels(a: array2<int>, b: array2<int>): seq<Pair>
    reads a, b
    requires SameShape(a, b)
  {
    Flatten(Pairs(a, b), a.Length0)
  }

  /** The number of pixels of a block, `win_xsize * win_ysize`. */
  function Area(a: array2<int>): nat
  {
    a.Length0 * a.Length1
  }

  lemma {:induction false} FlattenLength(g: seq<seq<Pair>>, m: int, w: int)
    requires 0 <= m <= |g| && Rows(g, w)
    ensures |Flatten(g, m)| == m * w
  {
    if m > 0 {
      FlattenLength(g, m - 1, w);
    }
  }

  lemma BlockPixelsLength(a: array2<int>, b: array2<int>)
    requires SameShape(a, b)
    ensures |BlockPixels(a, b)| == Area(a)
  {
    FlattenLength(Pairs(a, b), a.Length0, a.Length1);
  }

  /** Row `i` sits in `ps`, the first `m` rows flattened, right after the
      `k` pixels of the rows before it. */
  lemma {:induction false} FlattenAt(g: seq<seq<Pair>>, i: int, m: int, ps: seq<Pair>, k: int)
    requires 0 <= i < m <= |g| && ps == Flatten(g, m) && k == |Flatten(g, i)|
    ensures |Flatten(g, i + 1)| == k + |g[i]| <= |ps|
    ensures forall j :: 0 <= j < |g[i]| ==> ps[k + j] == g[i][j]
  {
    if m > i + 1 {
      FlattenAt(g, i, m - 1, Flatten(g, m - 1), k);
    }
  }

  /** Every pair of `ps` has its from-value in `froms` and its to-value in `tos`. */
  predicate Within(ps: seq<Pair>, froms: set<int>, tos: set<int>)
  {
    forall p :: p in ps ==> p.0 in froms && p.1 in tos
  }

  lemma WithinWider(ps: seq<Pair>, froms: set<int>, tos: set<int>, froms': set<int>, tos': set<int>)
    requires Within(ps, froms, tos) && froms <= froms' && tos <= tos'
    ensures Within(ps, froms', tos')
  {
  }

  lemma {:induction false} FlattenWithin(g: seq<seq<Pair>>, m: int, froms: set<int>, tos: set<int>)
    requires 0 <= m <= |g|
    requires forall i, j :: 0 <= i < |g| && 0 <= j < |g[i]| ==> g[i][j].0 in froms && g[i][j].1 in tos
    ensures Within(Flatten(g, m), froms, tos)
  {
    if m > 0 {
      FlattenWithin(g, m - 1, froms, tos);
      forall p | p in g[m - 1]
        ensures p.0 in froms && p.1 in tos
      {
        var j :| 0 <= j < |g[m - 1]| && g[m - 1][j] == p;
      }
    }
  }

  lemma BlockWithin(a: array2<int>, b: array2<int>)
    requires SameShape(a, b)
    ensures Within(BlockPixels(a, b), Values(a), Values(b))
  {
    ValuesHas(a);
    ValuesHas(b);
    FlattenWithin(Pairs(a, b), a.Length0, Values(a), Values(b));
  }

  /** A pixel value matches an integer nodata value. */
  predicate MatchesNodata(v: int, nodata: Option<int>)
  {
    nodata.Some? && v == nodata.value
  }

  /** The pair has a code in `codes` unless it is unchanged. */
  predicate HasCode(codes: map<Pair, int>, f: int, t: int)
  {
    f == t || (f, t) in codes
  }

  lemma KeepsTransitive(a: map<Pair, int>, b: map<Pair, int>, c: map<Pair, int>)
    requires Keeps(a, b) && Keeps(b, c)
    ensures Keeps(a, c)
  {
  }

  lemma KeepsCode(before: map<Pair, int>, after: map<Pair, int>, f: int, t: int)
    requires Keeps(before, after) && HasCode(before, f, t)
    ensures HasCode(after, f, t) && PairCode(after, f, t) == PairCode(before, f, t)
  {
  }

  /** Every entry of `before` is still in `after`, with the same code. */
  predicate Keeps(before: map<Pair, int>, after: map<Pair, int>)
  {
    forall p :: p in before ==> p in after && after[p] == before[p]
  }

  // ---------------------------------------------------------------------
  // The running state as a value

  /** The variables `lulc_transition_matrix` carries from pixel to pixel
      and from block to block: `transition_map`, the two value sets,
      `transition_str_dict` (keyed by pair), `transition_class_key`,
      `transition_index` and `n_pixels_processed`. */
  datatype Tally = Tally(transitionMap: map<int, map<int, nat>>,
                         fromValues: set<int>, toValues: set<int>,
                         codes: map<Pair, int>, classKey: map<int, Legend>,
                         nextCode: int, processed: nat)

  /** Lines 122-134. */
  function Initial(): Tally
  {
    Tally(map[], {}, {}, map[], map[UnchangedCode := Unchanged], 1, 0)
  }

  /** The matrix has a row for every from-value, and every row a cell for
      every to-value. */
  predicate Rectangular(st: Tally)
  {
    st.transitionMap.Keys == st.fromValues &&
    forall f :: f in st.transitionMap ==> st.transitionMap[f].Keys == st.toValues
  }

  /** `code_to_use` for the pixel `(f, t)`, lines 185-193. */
  function PixelCode(st: Tally, f: int, t: int): int
  {
    if f == t then UnchangedCode
    else if (f, t) in st.codes then st.codes[(f, t)]
    else st.nextCode
  }

  /** Lines 176-196: the pixel's cell goes up by one, a changed pair met
      for the first time takes the next code, and a code missing from the
      legend is entered with the pair's label.  A cell not yet in the
      matrix counts as zero; `Rectangular` and `Counts` show that the cell
      is always there when the pixel's values have been registered. */
  function PixelStep(st: Tally, f: int, t: int): (r: Tally)
    ensures r.fromValues == st.fromValues && r.toValues == st.toValues && r.processed == st.processed
  {
    var row := if f in st.transitionMap then st.transitionMap[f] else map[];
    var count := if t in row then row[t] else 0;
    var code := PixelCode(st, f, t);
    var isNew := f != t && (f, t) !in st.codes;
    Tally(st.transitionMap[f := row[t := count + 1]], st.fromValues, st.toValues,
          if isNew then st.codes[(f, t) := code] else st.codes,
          if code in st.classKey then st.classKey else st.classKey[code := Transition(f, t)],
          if isNew then st.nextCode + 1 else st.nextCode,
          st.processed)
  }

  /** The code written for a pixel is the one the tables give its pair
      afterwards, and no earlier entry moves. */
  lemma PixelCodes(st: Tally, f: int, t: int)
    ensures var r := PixelStep(st, f, t);
      Keeps(st.codes, r.codes) && HasCode(r.codes, f, t) && PairCode(r.codes, f, t) == PixelCode(st, f, t)
  {
  }

  /** The matrix has a cell for `(f, t)`. */
  predicate HasCell(st: Tally, f: int, t: int)
  {
    f in st.transitionMap && t in st.transitionMap[f]
  }

  /** Counting never removes a cell. */
  lemma {:induction false} CountPrefixCell(st: Tally, ps: seq<Pair>, n: int, f: int, t: int)
    requires 0 <= n <= |ps| && HasCell(st, f, t)
    ensures HasCell(CountPrefix(st, ps, n), f, t)
  {
    if n > 0 {
      CountPrefixCell(st, ps, n - 1, f, t);
    }
  }

  /** A registered pixel keeps the matrix rectangular. */
  lemma PixelShape(st: Tally, f: int, t: int)
    requires Rectangular(st) && f in st.fromValues && t in st.toValues
    ensures Rectangular(PixelStep(st, f, t))
  {
  }

  /** The first `n` pixels of `ps` counted one after another. */
  function CountPrefix(st: Tally, ps: seq<Pair>, n: int): (r: Tally)
    requires 0 <= n <= |ps|
    ensures r.fromValues == st.fromValues && r.toValues == st.toValues && r.processed == st.processed
  {
    if n == 0 then st
    else PixelStep(CountPrefix(st, ps, n - 1), ps[n - 1].0, ps[n - 1].1)
  }

  /** The pixels `ps` counted one after another. */
  function CountPairs(st: Tally, ps: seq<Pair>): Tally
  {
    CountPrefix(st, ps, |ps|)
  }

  /** Counting pixels never renumbers a recorded pair. */
  lemma {:induction false} CountPrefixKeeps(st: Tally, ps: seq<Pair>, n: int)
    requires 0 <= n <= |ps|
    ensures Keeps(st.codes, CountPrefix(st, ps, n).codes)
  {
    if n > 0 {
      var prev := CountPrefix(st, ps, n - 1);
      CountPrefixKeeps(st, ps, n - 1);
      PixelCodes(prev, ps[n - 1].0, ps[n - 1].1);
      KeepsTransitive(st.codes, prev.codes, PixelStep(prev, ps[n - 1].0, ps[n - 1].1).codes);
    }
  }

  /** A zero row over `columns`. */
  function ZeroRow(columns: set<int>): map<int, nat>
  {
    map t | t in columns :: 0
  }

  /** A row with zero cells added for `columns`. */
  function Widened(row: map<int, nat>, columns: set<int>): map<int, nat>
  {
    map t | t in row.Keys + columns :: if t in row then row[t] else 0
  }

  /** Lines 153-159: every from-value gets a zero row over all columns if
      it is new, and otherwise zero cells for the block's to-values. */
  function Extended(m: map<int, map<int, nat>>, froms: set<int>, columns: set<int>, blockTo: set<int>)
    : map<int, map<int, nat>>
  {
    map f | f in froms :: if f in m then Widened(m[f], blockTo) else ZeroRow(columns)
  }

  /** Lines 141-159: the block's values join the value sets and the matrix
      gains zero cells for them; no count changes. */
  function RegisterStep(st: Tally, fromBlock: set<int>, toBlock: set<int>): (r: Tally)
    ensures r.fromValues == st.fromValues + fromBlock && r.toValues == st.toValues + toBlock
    ensures r.codes == st.codes && r.classKey == st.classKey && r.nextCode == st.nextCode
    ensures r.processed == st.processed
  {
    var froms := st.fromValues + fromBlock;
    var tos := st.toValues + toBlock;
    st.(transitionMap := Extended(st.transitionMap, froms, tos, toBlock), fromValues := froms, toValues := tos)
  }

  /** The tally after a block, from its parts. */
  lemma BlockStepOf(st: Tally, a: array2<int>, b: array2<int>, registered: Tally, pixels: seq<Pair>, counted: Tally)
    requires SameShape(a, b) && registered == RegisterStep(st, Values(a), Values(b))
    requires pixels == BlockPixels(a, b) && counted == CountPairs(registered, pixels)
    ensures counted.(processed := counted.processed + Area(a)) == BlockStep(st, a, b)
  {
  }

  /** One iteration of the block loop, lines 138-203, on the tally: the
      block's values are registered, its pixels counted in row-major
      order, and its area added to the processed count. */
  ghost function BlockStep(st: Tally, a: array2<int>, b: array2<int>): (r: Tally)
    reads a, b
    requires SameShape(a, b)
    ensures r.fromValues == st.fromValues + Values(a) && r.toValues == st.toValues + Values(b)
    ensures r.processed == st.processed + Area(a)
  {
    var counted := CountPairs(RegisterStep(st, Values(a), Values(b)), BlockPixels(a, b));
    counted.(processed := counted.processed + Area(a))
  }

  /** What a block contributes: its two value sets, its grid of pixel
      pairs, and those pairs in row-major order. */
  datatype View = View(froms: set<int>, tos: set<int>, grid: seq<seq<Pair>>, pixels: seq<Pair>)

  ghost function ViewOf(a: array2<int>, b: array2<int>): View
    reads a, b
    requires SameShape(a, b)
  {
    View(Values(a), Values(b), Pairs(a, b), BlockPixels(a, b))
  }

  /** The block step on a block's view. */
  function ViewStep(st: Tally, v: View): Tally
  {
    var counted := CountPairs(RegisterStep(st, v.froms, v.tos), v.pixels);
    counted.(processed := counted.processed + |v.pixels|)
  }

  /** Every pixel of the view has its values among the view's value sets. */
  predicate ViewWithin(v: View)
  {
    Within(v.pixels, v.froms, v.tos)
  }

  lemma BlockStepView(st: Tally, a: array2<int>, b: array2<int>)
    requires SameShape(a, b)
    ensures BlockStep(st, a, b) == ViewStep(st, ViewOf(a, b)) && ViewWithin(ViewOf(a, b))
  {
    BlockPixelsLength(a, b);
    BlockWithin(a, b);
  }

  /** One more pixel extends the count by one pixel step. */
  lemma CountStep(r: Tally, base: Tally, pixels: seq<Pair>, n: int, f: int, t: int)
    requires 0 <= n < |pixels| && r == CountPrefix(base, pixels, n) && pixels[n] == (f, t)
    ensures PixelStep(r, f, t) == CountPrefix(base, pixels, n + 1)
  {
  }

  /** Counting a prefix keeps the matrix rectangular. */
  lemma {:induction false} CountPrefixShape(st: Tally, ps: seq<Pair>, n: int)
    requires Rectangular(st) && Within(ps, st.fromValues, st.toValues) && 0 <= n <= |ps|
    ensures Rectangular(CountPrefix(st, ps, n))
  {
    if n > 0 {
      CountPrefixShape(st, ps, n - 1);
      assert ps[n - 1] in ps;
      PixelShape(CountPrefix(st, ps, n - 1), ps[n - 1].0, ps[n - 1].1);
    }
  }

  // ---------------------------------------------------------------------
  // What the tally records

  /** The matrix counts the pixels `s`: a cell per from-value and to-value
      met so far, each holding the number of pixels with that pair. */
  ghost predicate Counts(st: Tally, s: seq<Pair>)
  {
    Rectangular(st) &&
    Within(s, st.fromValues, st.toValues) &&
    forall f, t :: f in st.transitionMap && t in st.transitionMap[f] ==>
      st.transitionMap[f][t] == multiset(s)[(f, t)]
  }

  /** The code tables are those of the changed pairs of `s` in first-seen order. */
  ghost predicate Coded(st: Tally, s: seq<Pair>)
  {
    var ps := Changes(s);
    st.codes == CodeTable(ps) && st.classKey == ClassKey(ps) && st.nextCode == |ps| + 1
  }

  /** The tally is the one of the pixels `s`. */
  ghost predicate Describes(st: Tally, s: seq<Pair>)
  {
    Counts(st, s) && Coded(st, s) && st.processed == |s|
  }

  lemma InitialDescribes()
    ensures Describes(Initial(), [])
  {
  }

  /** A pixel raises exactly the cell of its pair. */
  lemma PixelCounts(st: Tally, s: seq<Pair>, f: int, t: int, s': seq<Pair>)
    requires Counts(st, s) && f in st.fromValues && t in st.toValues && s' == s + [(f, t)]
    ensures Counts(PixelStep(st, f, t), s')
  {
    assert multiset(s') == multiset(s) + multiset{(f, t)};
  }

  /** A pixel extends the code tables exactly when its pair changes and is new. */
  lemma PixelCoded(st: Tally, s: seq<Pair>, f: int, t: int, s': seq<Pair>)
    requires Coded(st, s) && s' == s + [(f, t)]
    ensures Coded(PixelStep(st, f, t), s')
  {
    var ps := Changes(s);
    ChangesMembers(s);
    ChangesAppend(s, (f, t));
    CodeLookup(ps, f, t);
    CodeGrow(ps, (f, t));
  }

  lemma TakeNext(s: seq<Pair>, ps: seq<Pair>, n: int)
    requires 0 < n <= |ps|
    ensures s + ps[..n] == (s + ps[..n - 1]) + [ps[n - 1]]
  {
    assert ps[..n] == ps[..n - 1] + [ps[n - 1]];
  }

  /** Counting pixels one by one keeps the matrix that of all pixels seen. */
  lemma {:induction false} CountPrefixCounts(st: Tally, s: seq<Pair>, ps: seq<Pair>, n: int)
    requires Counts(st, s) && Within(ps, st.fromValues, st.toValues) && 0 <= n <= |ps|
    ensures Counts(CountPrefix(st, ps, n), s + ps[..n])
  {
    if n == 0 {
      assert s + ps[..n] == s;
    } else {
      CountPrefixCounts(st, s, ps, n - 1);
      TakeNext(s, ps, n);
      var p := ps[n - 1];
      PixelCounts(CountPrefix(st, ps, n - 1), s + ps[..n - 1], p.0, p.1, s + ps[..n]);
    }
  }

  /** Counting pixels one by one keeps the code tables those of all pixels seen. */
  lemma {:induction false} CountPrefixCoded(st: Tally, s: seq<Pair>, ps: seq<Pair>, n: int)
    requires Coded(st, s) && 0 <= n <= |ps|
    ensures Coded(CountPrefix(st, ps, n), s + ps[..n])
  {
    if n == 0 {
      assert s + ps[..n] == s;
    } else {
      CountPrefixCoded(st, s, ps, n - 1);
      TakeNext(s, ps, n);
      var p := ps[n - 1];
      PixelCoded(CountPrefix(st, ps, n - 1), s + ps[..n - 1], p.0, p.1, s + ps[..n]);
    }
  }

  lemma CountPairsDescribes(st: Tally, s: seq<Pair>, ps: seq<Pair>, s': seq<Pair>)
    requires Counts(st, s) && Coded(st, s) && Within(ps, st.fromValues, st.toValues) && s' == s + ps
    ensures Counts(CountPairs(st, ps), s') && Coded(CountPairs(st, ps), s')
  {
    assert ps[..|ps|] == ps;
    CountPrefixCounts(st, s, ps, |ps|);
    CountPrefixCoded(st, s, ps, |ps|);
  }

  /** Registering a block's values adds only zero cells. */
  lemma RegisterShape(st: Tally, fromBlock: set<int>, toBlock: set<int>)
    requires Rectangular(st)
    ensures Rectangular(RegisterStep(st, fromBlock, toBlock))
  {
  }

  lemma RegisterCounts(st: Tally, s: seq<Pair>, fromBlock: set<int>, toBlock: set<int>)
    requires Counts(st, s)
    ensures Counts(RegisterStep(st, fromBlock, toBlock), s)
  {
    var r := RegisterStep(st, fromBlock, toBlock);
    forall f, t | f in r.transitionMap && t in r.transitionMap[f]
      ensures r.transitionMap[f][t] == multiset(s)[(f, t)]
    {
      if !(f in st.transitionMap && t in st.transitionMap[f]) {
        assert (f, t) !in s;
      }
    }
  }

  /** A block leaves the tally that of the pixels before it followed by
      the block's pixels. */
  lemma ViewDescribes(st: Tally, s: seq<Pair>, v: View)
    requires Describes(st, s) && ViewWithin(v)
    ensures Describes(ViewStep(st, v), s + v.pixels)
  {
    var registered := RegisterStep(st, v.froms, v.tos);
    RegisterCounts(st, s, v.froms, v.tos);
    WithinWider(v.pixels, v.froms, v.tos, registered.fromValues, registered.toValues);
    CountPairsDescribes(registered, s, v.pixels, s + v.pixels);
  }

  /** The same for a block read from the two rasters, its pixels in
      row-major order. */
  lemma BlockDescribes(st: Tally, s: seq<Pair>, a: array2<int>, b: array2<int>)
    requires Describes(st, s) && SameShape(a, b)
    ensures Describes(BlockStep(st, a, b), s + BlockPixels(a, b))
  {
    BlockStepView(st, a, b);
    ViewDescribes(st, s, ViewOf(a, b));
  }

  // ---------------------------------------------------------------------
  // The block loop

  /** Lines 157-159 for one existing row. */
  method ExtendRow(row: map<int, nat>, columns: set<int>) returns (r: map<int, nat>)
    ensures r == Widened(row, columns)
  {
    r := row;
    var remaining := columns;
    while remaining != {}
      invariant remaining <= columns
      invariant r.Keys == row.Keys + (columns - remaining)
      invariant forall t :: t in r ==> r[t] == if t in row then row[t] else 0
      decreases remaining
    {
      SomeValue(remaining);
      var t :| t in remaining;
      if t !in r {
        r := r[t := 0];
      }
      remaining := remaining - {t};
    }
    assert r.Keys == Widened(row, columns).Keys;
    assert forall t :: t in r ==> r[t] == Widened(row, columns)[t];
  }

  /** Lines 153-159. */
  method ExtendMatrix(m: map<int, map<int, nat>>, froms: set<int>, columns: set<int>, blockTo: set<int>)
    returns (m': map<int, map<int, nat>>)
    requires m.Keys <= froms
    ensures m' == Extended(m, froms, columns, blockTo)
  {
    m' := m;
    var remaining := froms;
    while remaining != {}
      invariant remaining <= froms
      invariant m'.Keys == m.Keys + (froms - remaining)
      invariant forall f :: f in m' ==>
        m'[f] == if f in remaining then m[f] else if f in m then Widened(m[f], blockTo) else ZeroRow(columns)
      decreases remaining
    {
      SomeValue(remaining);
      var f :| f in remaining;
      if f !in m' {
        m' := m'[f := map t | t in columns :: 0];
      } else {
        var row := ExtendRow(m'[f], blockTo);
        m' := m'[f := row];
      }
      remaining := remaining - {f};
    }
    assert m'.Keys == Extended(m, froms, columns, blockTo).Keys;
    assert forall f :: f in m' ==> m'[f] == Extended(m, froms, columns, blockTo)[f];
  }

  /** `transition_array[nodata_mask] = -1` for one row. */
  method MaskRow(out: array2<int>, fromMask: seq<seq<bool>>, toMask: seq<seq<bool>>, i: int)
    requires 0 <= i < out.Length0
    requires |fromMask| == |toMask| == out.Length0
    requires |fromMask[i]| == |toMask[i]| == out.Length1
    modifies out
    ensures forall j :: 0 <= j < out.Length1 ==>
      out[i, j] == if fromMask[i][j] && toMask[i][j] then TargetNodata else old(out[i, j])
    ensures forall i', j :: 0 <= i' < out.Length0 && i' != i && 0 <= j < out.Length1 ==>
      out[i', j] == old(out[i', j])
  {
    var j := 0;
    while j < out.Length1
      invariant 0 <= j <= out.Length1
      invariant forall j' :: 0 <= j' < j ==>
        out[i, j'] == if fromMask[i][j'] && toMask[i][j'] then TargetNodata else old(out[i, j'])
      invariant forall i', j' :: 0 <= i' < out.Length0 && 0 <= j' < out.Length1 && (i' != i || j' >= j) ==>
        out[i', j'] == old(out[i', j'])
    {
      if fromMask[i][j] && toMask[i][j] {
        out[i, j] := TargetNodata;
      }
      j := j + 1;
    }
  }

  /** `transition_array[nodata_mask] = -1`, line 199, the mask being the
      conjunction of the two inputs' masks (lines 147-149). */
  method ApplyMask(out: array2<int>, fromMask: seq<seq<bool>>, toMask: seq<seq<bool>>)
    requires |fromMask| == |toMask| == out.Length0
    requires forall i :: 0 <= i < out.Length0 ==> |fromMask[i]| == |toMask[i]| == out.Length1
    modifies out
    ensures forall i, j :: 0 <= i < out.Length0 && 0 <= j < out.Length1 ==>
      out[i, j] == if fromMask[i][j] && toMask[i][j] then TargetNodata else old(out[i, j])
  {
    var i := 0;
    while i < out.Length0
      invariant 0 <= i <= out.Length0
      invariant forall i', j :: 0 <= i' < i && 0 <= j < out.Length1 ==>
        out[i', j] == if fromMask[i'][j] && toMask[i'][j] then TargetNodata else old(out[i', j])
      invariant forall i', j :: i <= i' < out.Length0 && 0 <= j < out.Length1 ==>
        out[i', j] == old(out[i', j])
    {
      MaskRow(out, fromMask, toMask, i);
      i := i + 1;
    }
  }

  // ---------------------------------------------------------------------
  // The pixel loop, on the loop's variables

  /** Lines 176-196 for one pixel. */
  method CountPixel(st: Tally, f: int, t: int) returns (r: Tally, code: int)
    requires HasCell(st, f, t)
    ensures r == PixelStep(st, f, t) && code == PixelCode(st, f, t)
  {
    var transitionMap := st.transitionMap;
    transitionMap := transitionMap[f := transitionMap[f][t := transitionMap[f][t] + 1]];
    var codes, classKey, nextCode := st.codes, st.classKey, st.nextCode;
    code := UnchangedCode;
    if f != t {
      code := nextCode;
      if (f, t) !in codes {
        codes := codes[(f, t) := code];
        nextCode := nextCode + 1;
      } else {
        code := codes[(f, t)];
      }
    }
    if code !in classKey {
      classKey := classKey[code := Transition(f, t)];
    }
    r := Tally(transitionMap, st.fromValues, st.toValues, codes, classKey, nextCode, st.processed);
  }

  /** Lines 141-159. */
  method RegisterValues(st: Tally, fromBlock: array2<int>, toBlock: array2<int>) returns (r: Tally)
    requires st.transitionMap.Keys <= st.fromValues
    ensures r == RegisterStep(st, Values(fromBlock), Values(toBlock))
  {
    var fromValues := st.fromValues + Values(fromBlock);
    var blockTo := Values(toBlock);
    var toValues := st.toValues + blockTo;
    var transitionMap := ExtendMatrix(st.transitionMap, fromValues, toValues, blockTo);
    r := st.(transitionMap := transitionMap, fromValues := fromValues, toValues := toValues);
  }

  /** Registering a block gives every pixel of the block its cell. */
  lemma RegisterCells(st: Tally, a: array2<int>, b: array2<int>)
    requires Rectangular(st) && SameShape(a, b)
    ensures forall i, j :: 0 <= i < a.Length0 && 0 <= j < a.Length1 ==>
      HasCell(RegisterStep(st, Values(a), Values(b)), a[i, j], b[i, j])
  {
    RegisterShape(st, Values(a), Values(b));
    ValuesHas(a);
    ValuesHas(b);
  }

  /** The value lines 196-199 leave for a pixel pair: -1 where both
      values are nodata, the pair's code otherwise. */
  function Written(codes: map<Pair, int>, p: Pair, fromNodata: Option<int>, toNodata: Option<int>): int
    requires HasCode(codes, p.0, p.1)
  {
    if MatchesNodata(p.0, fromNodata) && MatchesNodata(p.1, toNodata) then TargetNodata
    else PairCode(codes, p.0, p.1)
  }

  /** Lines 173-197 for row `i` of a block: the pixels are counted and
      coded from left to right and each code is written to the row.  The
      row's pixels are those of `pixels` from `offset` on, the tally on
      entry is `base` with the pixels before `offset` counted, and the rows
      above `i` already hold their codes. */
  method ProcessRow(st: Tally, fromBlock: array2<int>, toBlock: array2<int>, out: array2<int>, i: int,
                    ghost base: Tally, ghost pixels: seq<Pair>, ghost offset: nat, ghost next: nat)
    returns (r: Tally)
    requires SameShape(fromBlock, toBlock) && SameShape(out, fromBlock)
    requires out != fromBlock && out != toBlock
    requires 0 <= i < fromBlock.Length0 && next == offset + fromBlock.Length1 <= |pixels|
    requires forall j :: 0 <= j < fromBlock.Length1 ==>
      pixels[offset + j] == (fromBlock[i, j], toBlock[i, j]) && HasCell(base, fromBlock[i, j], toBlock[i, j])
    requires st == CountPrefix(base, pixels, offset)
    requires forall i', j :: 0 <= i' < i && 0 <= j < out.Length1 ==>
      HasCode(st.codes, fromBlock[i', j], toBlock[i', j]) &&
      out[i', j] == PairCode(st.codes, fromBlock[i', j], toBlock[i', j])
    modifies out
    ensures r == CountPrefix(base, pixels, next)
    ensures Keeps(st.codes, r.codes)
    ensures forall i', j :: 0 <= i' <= i && 0 <= j < out.Length1 ==>
      HasCode(r.codes, fromBlock[i', j], toBlock[i', j]) &&
      out[i', j] == PairCode(r.codes, fromBlock[i', j], toBlock[i', j])
  {
    r := st;
    var j := 0;
    ghost var n := offset;
    while j < fromBlock.Length1
      invariant 0 <= j <= fromBlock.Length1 && n == offset + j
      invariant r == CountPrefix(base, pixels, n)
      invariant Keeps(st.codes, r.codes)
      invariant forall j' :: 0 <= j' < j ==>
        HasCode(r.codes, fromBlock[i, j'], toBlock[i, j']) &&
        out[i, j'] == PairCode(r.codes, fromBlock[i, j'], toBlock[i, j'])
      invariant forall i', j' :: 0 <= i' < out.Length0 && 0 <= j' < out.Length1 && i' != i ==>
        out[i', j'] == old(out[i', j'])
    {
      var f, t := fromBlock[i, j], toBlock[i, j];
      ghost var before := r;
      CountPrefixCell(base, pixels, n, f, t);
      CountStep(before, base, pixels, n, f, t);
      PixelCodes(before, f, t);
      var code;
      r, code := CountPixel(r, f, t);
      KeepsTransitive(st.codes, before.codes, r.codes);
      out[i, j] := code;
      forall j' | 0 <= j' <= j
        ensures HasCode(r.codes, fromBlock[i, j'], toBlock[i, j'])
        ensures out[i, j'] == PairCode(r.codes, fromBlock[i, j'], toBlock[i, j'])
      {
        if j' < j {
          KeepsCode(before.codes, r.codes, fromBlock[i, j'], toBlock[i, j']);
        }
      }
      j := j + 1;
      n := n + 1;
    }
    forall i', j | 0 <= i' < i && 0 <= j < out.Length1
      ensures HasCode(r.codes, fromBlock[i', j], toBlock[i', j])
      ensures out[i', j] == PairCode(r.codes, fromBlock[i', j], toBlock[i', j])
    {
      KeepsCode(st.codes, r.codes, fromBlock[i', j], toBlock[i', j]);
    }
  }

  /** Lines 165-197: a zero transition block is made and the block's
      pixels are counted row after row, in row-major order; each pixel's
      code is the one the final tables give its pair. */
  method CountBlock(st: Tally, fromBlock: array2<int>, toBlock: array2<int>,
                    ghost grid: seq<seq<Pair>>, ghost pixels: seq<Pair>)
    returns (r: Tally, out: array2<int>)
    requires SameShape(fromBlock, toBlock) && |grid| == fromBlock.Length0 && Rows(grid, fromBlock.Length1)
    requires forall i, j :: 0 <= i < |grid| && 0 <= j < |grid[i]| ==> grid[i][j] == (fromBlock[i, j], toBlock[i, j])
    requires pixels == Flatten(grid, fromBlock.Length0)
    requires forall i, j :: 0 <= i < fromBlock.Length0 && 0 <= j < fromBlock.Length1 ==>
      HasCell(st, fromBlock[i, j], toBlock[i, j])
    ensures r == CountPairs(st, pixels) && Keeps(st.codes, r.codes)
    ensures fresh(out) && SameShape(out, fromBlock)
    ensures forall i, j :: 0 <= i < out.Length0 && 0 <= j < out.Length1 ==>
      HasCode(r.codes, fromBlock[i, j], toBlock[i, j]) &&
      out[i, j] == PairCode(r.codes, fromBlock[i, j], toBlock[i, j])
  {
    out := new int[fromBlock.Length0, fromBlock.Length1]((i, j) => 0);
    r := st;
    var i := 0;
    ghost var n := 0;
    while i < fromBlock.Length0
      invariant 0 <= i <= fromBlock.Length0 && n <= |pixels|
      invariant n == |Flatten(grid, i)|
      invariant r == CountPrefix(st, pixels, n)
      invariant forall i', j :: 0 <= i' < i && 0 <= j < out.Length1 ==>
        HasCode(r.codes, fromBlock[i', j], toBlock[i', j]) &&
        out[i', j] == PairCode(r.codes, fromBlock[i', j], toBlock[i', j])
    {
      FlattenAt(grid, i, fromBlock.Length0, pixels, n);
      ghost var next := n + fromBlock.Length1;
      r := ProcessRow(r, fromBlock, toBlock, out, i, st, pixels, n, next);
      i := i + 1;
      n := next;
    }
    CountPrefixKeeps(st, pixels, n);
  }

  /** One iteration of the block loop, lines 138-203: the tally becomes
      `BlockStep` (which `BlockDescribes` shows to describe the pixels seen
      so far followed by the block's pixels in row-major order), and the
      transition block holds -1 where both inputs are nodata and elsewhere
      the code the tables give the pixel's pair. */
  method ProcessBlock(st: Tally, fromBlock: array2<int>, toBlock: array2<int>,
                      fromNodata: Option<int>, toNodata: Option<int>)
    returns (r: Tally, out: array2<int>)
    requires Rectangular(st) && SameShape(fromBlock, toBlock)
    ensures r == BlockStep(st, fromBlock, toBlock) && Keeps(st.codes, r.codes)
    ensures fresh(out) && SameShape(out, fromBlock)
    ensures forall i, j :: 0 <= i < out.Length0 && 0 <= j < out.Length1 ==>
      HasCode(r.codes, fromBlock[i, j], toBlock[i, j]) &&
      out[i, j] == if MatchesNodata(fromBlock[i, j], fromNodata) && MatchesNodata(toBlock[i, j], toNodata)
                   then TargetNodata else PairCode(r.codes, fromBlock[i, j], toBlock[i, j])
  {
    var registered := RegisterValues(st, fromBlock, toBlock);
    var fromMask := ArrayEqualsNodata(fromBlock, fromNodata);
    var toMask := ArrayEqualsNodata(toBlock, toNodata);
    ghost var pixels := BlockPixels(fromBlock, toBlock);
    RegisterCells(st, fromBlock, toBlock);
    r, out := CountBlock(registered, fromBlock, toBlock, Pairs(fromBlock, toBlock), pixels);
    BlockStepOf(st, fromBlock, toBlock, registered, pixels, r);
    r := r.(processed := r.processed + Area(fromBlock));
    ApplyMask(out, fromMask, toMask);
  }

  // ---------------------------------------------------------------------
  // The whole run

  /** A block as `iterblocks` and `ReadAsArray` deliver it: the window's
      size and the two rasters' values in it, row by row. */
  datatype Window = Window(xsize: nat, ysize: nat, from: seq<seq<int>>, to: seq<seq<int>>)

  /** `g` has `h` rows of `w` values. */
  predicate Matrix(g: seq<seq<int>>, h: nat, w: nat)
  {
    |g| == h && forall i :: 0 <= i < h ==> |g[i]| == w
  }

  predicate WindowShaped(b: Window)
  {
    Matrix(b.from, b.ysize, b.xsize) && Matrix(b.to, b.ysize, b.xsize)
  }

  function GridValues(g: seq<seq<int>>): set<int>
  {
    set i, j | 0 <= i < |g| && 0 <= j < |g[i]| :: g[i][j]
  }

  /** The window's from/to pairs, row by row. */
  function WindowPairs(b: Window): (g: seq<seq<Pair>>)
    requires WindowShaped(b)
  {
    seq(b.ysize, i requires 0 <= i < b.ysize => seq(b.xsize, j requires 0 <= j < b.xsize => (b.from[i][j], b.to[i][j])))
  }

  /** What the window contributes to the tally. */
  function WindowView(b: Window): View
    requires WindowShaped(b)
  {
    View(GridValues(b.from), GridValues(b.to), WindowPairs(b), Flatten(WindowPairs(b), b.ysize))
  }

  /** The views of all windows. */
  function WindowViews(blocks: seq<Window>): (vs: seq<View>)
    requires forall k :: 0 <= k < |blocks| ==> WindowShaped(blocks[k])
  {
    seq(|blocks|, k requires 0 <= k < |blocks| && WindowShaped(blocks[k]) => WindowView(blocks[k]))
  }

  /** `ReadAsArray` for one raster's window: a new array holding its values. */
  method ReadBlock(g: seq<seq<int>>, h: nat, w: nat) returns (a: array2<int>)
    requires Matrix(g, h, w)
    ensures fresh(a) && a.Length0 == h && a.Length1 == w && Holds(a, g)
  {
    a := new int[h, w]((i, j) requires 0 <= i < h && 0 <= j < w => g[i][j]);
  }

  /** An array holding `g`. */
  ghost predicate Holds(a: array2<int>, g: seq<seq<int>>)
    reads a
  {
    Matrix(g, a.Length0, a.Length1) &&
    forall i, j :: 0 <= i < a.Length0 && 0 <= j < a.Length1 ==> a[i, j] == g[i][j]
  }

  /** The view of the two arrays read for a window is the window's view. */
  lemma ReadView(a: array2<int>, b: array2<int>, w: Window)
    requires WindowShaped(w) && Holds(a, w.from) && Holds(b, w.to)
    requires a.Length0 == w.ysize && a.Length1 == w.xsize && SameShape(a, b)
    ensures ViewOf(a, b) == WindowView(w)
  {
    assert Values(a) == GridValues(w.from) by {
      forall v | v in GridValues(w.from)
        ensures v in Values(a)
      {
        var i, j :| 0 <= i < |w.from| && 0 <= j < |w.from[i]| && w.from[i][j] == v;
        assert a[i, j] == v;
      }
    }
    assert Values(b) == GridValues(w.to) by {
      forall v | v in GridValues(w.to)
        ensures v in Values(b)
      {
        var i, j :| 0 <= i < |w.to| && 0 <= j < |w.to[i]| && w.to[i][j] == v;
        assert b[i, j] == v;
      }
    }
    var g, g' := Pairs(a, b), WindowPairs(w);
    forall i | 0 <= i < |g|
      ensures g[i] == g'[i]
    {
      assert forall j :: 0 <= j < |g[i]| ==> g[i][j] == g'[i][j];
    }
    assert g == g';
  }

  lemma WindowWithin(b: Window)
    requires WindowShaped(b)
    ensures ViewWithin(WindowView(b))
  {
    var g: seq<seq<Pair>> := WindowPairs(b);
    forall i, j | 0 <= i < |g| && 0 <= j < |g[i]|
      ensures g[i][j].0 in GridValues(b.from) && g[i][j].1 in GridValues(b.to)
    {
      var f, t := b.from[i][j], b.to[i][j];
    }
    FlattenWithin(g, b.ysize, GridValues(b.from), GridValues(b.to));
  }

  /** A block keeps the matrix rectangular. */
  lemma BlockShape(st: Tally, a: array2<int>, b: array2<int>)
    requires Rectangular(st) && SameShape(a, b)
    ensures Rectangular(BlockStep(st, a, b))
  {
    var registered := RegisterStep(st, Values(a), Values(b));
    var pixels := BlockPixels(a, b);
    RegisterShape(st, Values(a), Values(b));
    BlockWithin(a, b);
    WithinWider(pixels, Values(a), Values(b), registered.fromValues, registered.toValues);
    CountPrefixShape(registered, pixels, |pixels|);
  }

  /** The tally after the first `n` views. */
  function RunTally(views: seq<View>, n: int): Tally
    requires 0 <= n <= |views|
  {
    if n == 0 then Initial() else ViewStep(RunTally(views, n - 1), views[n - 1])
  }

  /** The pixels of the first `n` views. */
  function Seen(views: seq<View>, n: int): seq<Pair>
    requires 0 <= n <= |views|
  {
    if n == 0 then [] else Seen(views, n - 1) + views[n - 1].pixels
  }

  /** After any number of blocks the tally is the one of their pixels,
      block after block. */
  lemma RunDescribes(views: seq<View>, n: int)
    requires 0 <= n <= |views| && forall k :: 0 <= k < |views| ==> ViewWithin(views[k])
    ensures Describes(RunTally(views, n), Seen(views, n))
  {
    var st, s, k := Initial(), [], 0;
    InitialDescribes();
    while k < n
      invariant 0 <= k <= n && st == RunTally(views, k) && s == Seen(views, k) && Describes(st, s)
    {
      ViewDescribes(st, s, views[k]);
      st, s, k := ViewStep(st, views[k]), s + views[k].pixels, k + 1;
    }
  }

  /** The contents of an array, row by row: what `WriteArray` copies out. */
  function Rows2(a: array2<int>): (r: seq<seq<int>>)
    reads a
    ensures |r| == a.Length0 && forall i :: 0 <= i < |r| ==> |r[i]| == a.Length1
    ensures forall i, j :: 0 <= i < a.Length0 && 0 <= j < a.Length1 ==> r[i][j] == a[i, j]
  {
    seq(a.Length0, i requires 0 <= i < a.Length0 reads a => seq(a.Length1, j requires 0 <= j < a.Length1 reads a => a[i, j]))
  }

  /** Written rows hold, pixel by pixel, what the codes give the grid's pairs. */
  predicate RowsCoded(rows: seq<seq<int>>, grid: seq<seq<Pair>>, codes: map<Pair, int>,
                      fromNodata: Option<int>, toNodata: Option<int>)
  {
    |rows| == |grid| &&
    (forall i :: 0 <= i < |rows| ==> |rows[i]| == |grid[i]|) &&
    forall i, j :: 0 <= i < |grid| && 0 <= j < |grid[i]| ==>
      HasCode(codes, grid[i][j].0, grid[i][j].1) && rows[i][j] == Written(codes, grid[i][j], fromNodata, toNodata)
  }

  lemma BlockRowsCoded(out: array2<int>, a: array2<int>, b: array2<int>, codes: map<Pair, int>,
                       fromNodata: Option<int>, toNodata: Option<int>)
    requires SameShape(out, a) && SameShape(a, b)
    requires forall i, j :: 0 <= i < out.Length0 && 0 <= j < out.Length1 ==>
      HasCode(codes, a[i, j], b[i, j]) &&
      out[i, j] == if MatchesNodata(a[i, j], fromNodata) && MatchesNodata(b[i, j], toNodata)
                   then TargetNodata else PairCode(codes, a[i, j], b[i, j])
    ensures RowsCoded(Rows2(out), Pairs(a, b), codes, fromNodata, toNodata)
  {
  }

  /** Later tables keep what written rows mean. */
  lemma RowsCodedKeeps(rows: seq<seq<int>>, grid: seq<seq<Pair>>, codes: map<Pair, int>, codes': map<Pair, int>,
                       fromNodata: Option<int>, toNodata: Option<int>)
    requires RowsCoded(rows, grid, codes, fromNodata, toNodata) && Keeps(codes, codes')
    ensures RowsCoded(rows, grid, codes', fromNodata, toNodata)
  {
    forall i, j | 0 <= i < |grid| && 0 <= j < |grid[i]|
      ensures HasCode(codes', grid[i][j].0, grid[i][j].1)
      ensures PairCode(codes', grid[i][j].0, grid[i][j].1) == PairCode(codes, grid[i][j].0, grid[i][j].1)
    {
      KeepsCode(codes, codes', grid[i][j].0, grid[i][j].1);
    }
  }

  /** The first `n` written blocks hold their views' codes. */
  predicate AllCoded(written: seq<seq<seq<int>>>, views: seq<View>, n: int, codes: map<Pair, int>,
                     fromNodata: Option<int>, toNodata: Option<int>)
    requires n <= |written| && n <= |views|
  {
    forall k :: 0 <= k < n ==> RowsCoded(written[k], views[k].grid, codes, fromNodata, toNodata)
  }

  lemma AllCodedStep(written: seq<seq<seq<int>>>, rows: seq<seq<int>>, views: seq<View>, n: int,
                     codes: map<Pair, int>, codes': map<Pair, int>, fromNodata: Option<int>, toNodata: Option<int>)
    requires n == |written| < |views| && AllCoded(written, views, n, codes, fromNodata, toNodata)
    requires Keeps(codes, codes') && RowsCoded(rows, views[n].grid, codes', fromNodata, toNodata)
    ensures AllCoded(written + [rows], views, n + 1, codes', fromNodata, toNodata)
  {
    var written' := written + [rows];
    forall k | 0 <= k <= n
      ensures RowsCoded(written'[k], views[k].grid, codes', fromNodata, toNodata)
    {
      if k < n {
        assert written'[k] == written[k];
        RowsCodedKeeps(written[k], views[k].grid, codes, codes', fromNodata, toNodata);
      }
    }
  }

  lemma RunTallyNext(views: seq<View>, k: int, before: Tally, after: Tally)
    requires 0 <= k < |views| && before == RunTally(views, k) && after == ViewStep(before, views[k])
    ensures after == RunTally(views, k + 1)
  {
  }

  /** Lines 138-200 for one window: both rasters' values are read into
      new arrays, the block is processed, and its transition array is what
      `WriteArray` writes out. */
  method TransitionWindow(st: Tally, w: Window, fromNodata: Option<int>, toNodata: Option<int>)
    returns (r: Tally, rows: seq<seq<int>>)
    requires Rectangular(st) && WindowShaped(w)
    ensures r == ViewStep(st, WindowView(w)) && Rectangular(r) && Keeps(st.codes, r.codes)
    ensures RowsCoded(rows, WindowPairs(w), r.codes, fromNodata, toNodata)
  {
    var fromBlock := ReadBlock(w.from, w.ysize, w.xsize);
    var toBlock := ReadBlock(w.to, w.ysize, w.xsize);
    var out;
    r, out := ProcessBlock(st, fromBlock, toBlock, fromNodata, toNodata);
    BlockShape(st, fromBlock, toBlock);
    BlockStepView(st, fromBlock, toBlock);
    BlockRowsCoded(out, fromBlock, toBlock, r.codes, fromNodata, toNodata);
    ReadView(fromBlock, toBlock, w);
    rows := Rows2(out);
  }

  /** Lines 138-200 for the k-th window of the run: the tally and the
      written blocks go from those of the first k windows to those of the
      first k + 1. */
  method NextWindow(blocks: seq<Window>, k: int, st: Tally, written: seq<seq<seq<int>>>,
                    fromNodata: Option<int>, toNodata: Option<int>)
    returns (st': Tally, written': seq<seq<seq<int>>>)
    requires forall j :: 0 <= j < |blocks| ==> WindowShaped(blocks[j])
    requires 0 <= k < |blocks| && |written| == k
    requires st == RunTally(WindowViews(blocks), k) && Rectangular(st)
    requires AllCoded(written, WindowViews(blocks), k, st.codes, fromNodata, toNodata)
    ensures st' == RunTally(WindowViews(blocks), k + 1) && Rectangular(st') && |written'| == k + 1
    ensures AllCoded(written', WindowViews(blocks), k + 1, st'.codes, fromNodata, toNodata)
  {
    ghost var views := WindowViews(blocks);
    assert views[k] == WindowView(blocks[k]);
    var rows;
    st', rows := TransitionWindow(st, blocks[k], fromNodata, toNodata);
    RunTallyNext(views, k, st, st');
    AllCodedStep(written, rows, views, k, st.codes, st'.codes, fromNodata, toNodata);
    written' := written + [rows];
  }

  /** Lines 122-211: the tally starts empty and every window, in the
      order `iterblocks` yields them, is read, processed and its transition
      array written; at the end the tally describes all pixels read,
      window after window, and every written block holds its pixels' codes
      in the final tables (or -1). */
  method TransitionBlocks(blocks: seq<Window>, fromNodata: Option<int>, toNodata: Option<int>)
    returns (st: Tally, written: seq<seq<seq<int>>>)
    requires forall k :: 0 <= k < |blocks| ==> WindowShaped(blocks[k])
    ensures st == RunTally(WindowViews(blocks), |blocks|) && |written| == |blocks|
    ensures Describes(st, Seen(WindowViews(blocks), |blocks|))
    ensures AllCoded(written, WindowViews(blocks), |blocks|, st.codes, fromNodata, toNodata)
  {
    st := Initial();
    written := [];
    var k := 0;
    while k < |blocks|
      invariant 0 <= k <= |blocks| && |written| == k
      invariant st == RunTally(WindowViews(blocks), k) && Rectangular(st)
      invariant AllCoded(written, WindowViews(blocks), k, st.codes, fromNodata, toNodata)
    {
      st, written := NextWindow(blocks, k, st, written, fromNodata, toNodata);
      k := k + 1;
    }
    RunWindowsDescribe(blocks, st);
  }

  /** The tally at the end of the run is the one of all windows' pixels,
      window after window. */
  lemma RunWindowsDescribe(blocks: seq<Window>, st: Tally)
    requires forall k :: 0 <= k < |blocks| ==> WindowShaped(blocks[k])
    requires st == RunTally(WindowViews(blocks), |blocks|)
    ensures Describes(st, Seen(WindowViews(blocks), |blocks|))
  {
    var views := WindowViews(blocks);
    forall k | 0 <= k < |views|
      ensures ViewWithin(views[k])
    {
      WindowWithin(blocks[k]);
    }
    RunDescribes(views, |views|);
  }

  // ---------------------------------------------------------------------
  // The two tables

  /** A table cell as `csv.writer` receives it: a string or an integer. */
  datatype Cell = Text(text: string) | Number(value: int)

  function Numbers(r: seq<int>): seq<Cell>
  {
    seq(|r|, i requires 0 <= i < |r| => Number(r[i]))
  }

  /** `transition_map[f][t]`; on a rectangular tally every lookup of the
      matrix writer finds its key, and the 0 is never used. */
  function Entry(st: Tally, f: int, t: int): nat
  {
    if f in st.transitionMap && t in st.transitionMap[f] then st.transitionMap[f][t] else 0
  }

  /** The matrix cells of row `f` for the columns `ys`. */
  function CountCells(st: Tally, f: int, ys: seq<int>): seq<Cell>
  {
    seq(|ys|, j requires 0 <= j < |ys| => Number(Entry(st, f, ys[j])))
  }

  /** The rows of the matrix for the from-values `xs`. */
  function MatrixRows(st: Tally, xs: seq<int>, ys: seq<int>): seq<seq<Cell>>
  {
    seq(|xs|, i requires 0 <= i < |xs| => [Number(xs[i])] + CountCells(st, xs[i], ys))
  }

  /** Lines 221-232: the header `From/To` and the sorted to-values, then
      one row per sorted from-value with its count for every to-value. */
  function MatrixTable(st: Tally): seq<seq<Cell>>
    requires Rectangular(st)
  {
    var xs := SortedValues(st.fromValues);
    var ys := SortedValues(st.toValues);
    [[Text("From/To")] + Numbers(ys)] + MatrixRows(st, xs, ys)
  }

  lemma CountCellsSnoc(st: Tally, f: int, ys: seq<int>, j: int)
    requires 0 <= j < |ys|
    ensures CountCells(st, f, ys[..j + 1]) == CountCells(st, f, ys[..j]) + [Number(Entry(st, f, ys[j]))]
  {
  }

  lemma MatrixRowsSnoc(st: Tally, xs: seq<int>, ys: seq<int>, i: int)
    requires 0 <= i < |xs|
    ensures MatrixRows(st, xs[..i + 1], ys) == MatrixRows(st, xs[..i], ys) + [[Number(xs[i])] + CountCells(st, xs[i], ys)]
  {
  }

  /** Every sorted from-value has a row and every sorted to-value a cell in it. */
  lemma SortedLookups(st: Tally, xs: seq<int>, ys: seq<int>)
    requires Rectangular(st)
    requires xs == SortedValues(st.fromValues) && ys == SortedValues(st.toValues)
    ensures forall i :: 0 <= i < |xs| ==> xs[i] in st.transitionMap && RowHas(st.transitionMap[xs[i]], ys)
  {
  }

  predicate RowHas(row: map<int, nat>, ys: seq<int>)
  {
    forall k :: 0 <= k < |ys| ==> ys[k] in row
  }

  /** Lines 227-231: one row of the matrix, built cell by cell. */
  method WriteMatrixRow(st: Tally, f: int, ys: seq<int>) returns (row: seq<Cell>)
    requires f in st.transitionMap && RowHas(st.transitionMap[f], ys)
    ensures row == [Number(f)] + CountCells(st, f, ys)
  {
    row := [Number(f)];
    var j := 0;
    while j < |ys|
      invariant 0 <= j <= |ys|
      invariant row == [Number(f)] + CountCells(st, f, ys[..j])
    {
      CountCellsSnoc(st, f, ys, j);
      row := row + [Number(st.transitionMap[f][ys[j]])];
      j := j + 1;
    }
    assert ys[..j] == ys;
  }

  /** Lines 226-232: the rows of the from-values `xs`, one after the other. */
  method WriteMatrixRows(st: Tally, xs: seq<int>, ys: seq<int>) returns (body: seq<seq<Cell>>)
    requires forall i :: 0 <= i < |xs| ==> xs[i] in st.transitionMap && RowHas(st.transitionMap[xs[i]], ys)
    ensures body == MatrixRows(st, xs, ys)
  {
    body := [];
    var i := 0;
    while i < |xs|
      invariant 0 <= i <= |xs|
      invariant body == MatrixRows(st, xs[..i], ys)
    {
      var row := WriteMatrixRow(st, xs[i], ys);
      MatrixRowsSnoc(st, xs, ys, i);
      body := body + [row];
      i := i + 1;
    }
    assert xs[..i] == xs;
  }

  /** Lines 221-232 as the script writes them: the header, then the rows. */
  method WriteMatrix(st: Tally) returns (rows: seq<seq<Cell>>)
    requires Rectangular(st)
    ensures rows == MatrixTable(st)
  {
    var xs := SortedValues(st.fromValues);
    var ys := SortedValues(st.toValues);
    SortedLookups(st, xs, ys);
    var body := WriteMatrixRows(st, xs, ys);
    rows := [[Text("From/To")] + Numbers(ys)] + body;
  }

  /** One row of the matrix holds the pixel counts of its from-value. */
  lemma RowCounts(st: Tally, ms: multiset<Pair>, f: int, ys: seq<int>)
    requires f in st.transitionMap && forall j :: 0 <= j < |ys| ==> ys[j] in st.transitionMap[f]
    requires forall g, t :: g in st.transitionMap && t in st.transitionMap[g] ==> st.transitionMap[g][t] == ms[(g, t)]
    ensures CountCells(st, f, ys) == Numbers(CountRow(ms, f, ys))
  {
    var cells := CountCells(st, f, ys);
    var row := CountRow(ms, f, ys);
    forall j | 0 <= j < |ys|
      ensures cells[j] == Number(row[j])
    {
      CountRowIndex(ms, f, ys, j);
      assert cells[j] == Number(Entry(st, f, ys[j]));
      var t := ys[j];
      assert t in st.transitionMap[f];
      assert st.transitionMap[f][t] == ms[(f, t)];
      assert row[j] == ms[(f, t)];
    }
  }

  /** The rows of the matrix hold the pixel counts of their from-values. */
  lemma MatrixRowsCounts(st: Tally, ms: multiset<Pair>, xs: seq<int>, ys: seq<int>)
    requires Rectangular(st)
    requires forall i :: 0 <= i < |xs| ==> xs[i] in st.fromValues
    requires forall j :: 0 <= j < |ys| ==> ys[j] in st.toValues
    requires forall g, t :: g in st.transitionMap && t in st.transitionMap[g] ==> st.transitionMap[g][t] == ms[(g, t)]
    ensures var rows := MatrixRows(st, xs, ys);
      var m := CountMatrix(ms, xs, ys);
      forall i :: 0 <= i < |xs| ==> rows[i] == [Number(xs[i])] + Numbers(m[i])
  {
    var rows := MatrixRows(st, xs, ys);
    var m := CountMatrix(ms, xs, ys);
    forall i | 0 <= i < |xs|
      ensures rows[i] == [Number(xs[i])] + Numbers(m[i])
    {
      CountMatrixIndex(ms, xs, ys, i);
      RowCounts(st, ms, xs[i], ys);
    }
  }

  /** The matrix table holds, for every sorted from-value and to-value,
      the number of pixels with that pair. */
  lemma MatrixTableCounts(st: Tally, s: seq<Pair>)
    requires Counts(st, s)
    ensures var t := MatrixTable(st);
      var xs := SortedValues(st.fromValues);
      var ys := SortedValues(st.toValues);
      var m := CountMatrix(multiset(s), xs, ys);
      |t| == |xs| + 1 && t[0] == [Text("From/To")] + Numbers(ys) &&
      forall i :: 0 <= i < |xs| ==> t[i + 1] == [Number(xs[i])] + Numbers(m[i])
  {
    MatrixTableOf(st, multiset(s));
  }

  /** The matrix table of a rectangular tally whose entries are the
      multiplicities of `ms`. */
  lemma MatrixTableOf(st: Tally, ms: multiset<Pair>)
    requires Rectangular(st)
    requires forall g, t :: g in st.transitionMap && t in st.transitionMap[g] ==> st.transitionMap[g][t] == ms[(g, t)]
    ensures var t := MatrixTable(st);
      var xs := SortedValues(st.fromValues);
      var ys := SortedValues(st.toValues);
      |t| == |xs| + 1 && t[0] == [Text("From/To")] + Numbers(ys) &&
      forall i :: 0 <= i < |xs| ==> t[i + 1] == [Number(xs[i])] + Numbers(CountMatrix(ms, xs, ys)[i])
  {
    var xs := SortedValues(st.fromValues);
    var ys := SortedValues(st.toValues);
    MatrixRowsCounts(st, ms, xs, ys);
    MatrixTableRows(st, xs, ys, CountMatrix(ms, xs, ys));
  }

  lemma MatrixTableRows(st: Tally, xs: seq<int>, ys: seq<int>, m: seq<seq<nat>>)
    requires Rectangular(st)
    requires xs == SortedValues(st.fromValues) && ys == SortedValues(st.toValues)
    requires |m| == |xs| && forall i :: 0 <= i < |xs| ==> MatrixRows(st, xs, ys)[i] == [Number(xs[i])] + Numbers(m[i])
    ensures var t := MatrixTable(st);
      |t| == |xs| + 1 && t[0] == [Text("From/To")] + Numbers(ys) &&
      forall i :: 0 <= i < |xs| ==> t[i + 1] == [Number(xs[i])] + Numbers(m[i])
  {
    var t := MatrixTable(st);
    var rows := MatrixRows(st, xs, ys);
    assert t == [[Text("From/To")] + Numbers(ys)] + rows;
    assert forall i :: 0 <= i < |xs| ==> t[i + 1] == rows[i];
  }

  lemma MatrixTotalCount(st: Tally, s: seq<Pair>, xs: seq<int>, ys: seq<int>)
    requires Counts(st, s)
    requires xs == SortedValues(st.fromValues) && ys == SortedValues(st.toValues)
    ensures Total(CountMatrix(multiset(s), xs, ys)) == |s|
  {
    IncreasingDistinct(xs);
    IncreasingDistinct(ys);
    forall k | 0 <= k < |s|
      ensures s[k].0 in xs && s[k].1 in ys
    {
      assert s[k] in s;
    }
    CountMatrixTotal(s, xs, ys);
  }

  /** Lines 180 and 203: every processed pixel is counted exactly once, so
      the matrix adds up to `n_pixels_processed`. */
  lemma MatrixTotal(st: Tally, s: seq<Pair>)
    requires Describes(st, s)
    ensures Total(CountMatrix(multiset(s), SortedValues(st.fromValues), SortedValues(st.toValues))) == st.processed
  {
    MatrixTotalCount(st, s, SortedValues(st.fromValues), SortedValues(st.toValues));
  }

  /** The legend rows for the codes `keys`. */
  function ClassRows(st: Tally, keys: seq<int>): seq<seq<Cell>>
    requires forall i :: 0 <= i < |keys| ==> keys[i] in st.classKey
  {
    seq(|keys|, i requires 0 <= i < |keys| && keys[i] in st.classKey =>
      [Number(keys[i]), Text(LegendText(st.classKey[keys[i]]))])
  }

  /** Lines 234-243: the header, the nodata row, then one row per entry of
      `transition_class_key` in insertion order, which is ascending code
      order because codes are entered as they are handed out. */
  function RasterTable(st: Tally): seq<seq<Cell>>
  {
    [[Text("Transition Class"), Text("Transition")], [Text("-1 (nodata)"), Text("nodata to nodata")]] +
    ClassRows(st, SortedValues(st.classKey.Keys))
  }

  lemma ClassRowsSnoc(st: Tally, keys: seq<int>, i: int)
    requires forall k :: 0 <= k < |keys| ==> keys[k] in st.classKey
    requires 0 <= i < |keys|
    ensures ClassRows(st, keys[..i + 1]) ==
      ClassRows(st, keys[..i]) + [[Number(keys[i]), Text(LegendText(st.classKey[keys[i]]))]]
  {
  }

  /** Lines 234-243 as the script writes them: the two fixed rows, then
      one row per legend entry. */
  method WriteRasterTable(st: Tally) returns (rows: seq<seq<Cell>>)
    ensures rows == RasterTable(st)
  {
    var keys := SortedValues(st.classKey.Keys);
    var body := [];
    var i := 0;
    while i < |keys|
      invariant 0 <= i <= |keys|
      invariant body == ClassRows(st, keys[..i])
    {
      ClassRowsSnoc(st, keys, i);
      body := body + [[Number(keys[i]), Text(LegendText(st.classKey[keys[i]]))]];
      i := i + 1;
    }
    assert keys[..i] == keys;
    rows := [[Text("Transition Class"), Text("Transition")], [Text("-1 (nodata)"), Text("nodata to nodata")]] + body;
  }

  /** An increasing sequence whose members are exactly `0..n` is `0, 1, ..., n`. */
  lemma {:induction false} RangeAt(r: seq<int>, n: int, i: int)
    requires Increasing(r) && forall x :: x in r <==> 0 <= x <= n
    requires 0 <= i < |r|
    ensures r[i] == i
    decreases i
  {
    if i > 0 {
      RangeAt(r, n, i - 1);
    }
    assert r[i] in r;
    assert i in r;
    var j :| 0 <= j < |r| && r[j] == i;
  }

  lemma IncreasingRange(r: seq<int>, n: int)
    requires Increasing(r) && n >= 0 && forall x :: x in r <==> 0 <= x <= n
    ensures |r| == n + 1 && forall i :: 0 <= i < |r| ==> r[i] == i
  {
    forall i | 0 <= i < |r|
      ensures r[i] == i
    {
      RangeAt(r, n, i);
    }
    assert n in r;
    var j :| 0 <= j < |r| && r[j] == n;
    assert r[|r| - 1] in r;
  }

  /** The legend table of the pixels `s`: the nodata row, `0` unchanged,
      then the k-th changed pair under code k, with its label. */
  lemma RasterTableRows(st: Tally, s: seq<Pair>)
    requires Coded(st, s)
    ensures var t := RasterTable(st);
      var ps := Changes(s);
      |t| == |ps| + 3 &&
      t[0] == [Text("Transition Class"), Text("Transition")] &&
      t[1] == [Text("-1 (nodata)"), Text("nodata to nodata")] &&
      t[2] == [Number(UnchangedCode), Text("unchanged")] &&
      forall k :: 0 <= k < |ps| ==> t[k + 3] == [Number(k + 1), Text(Label(ps[k].0, ps[k].1))]
  {
    ClassKeyLookup(Changes(s));
    LegendTable(st, Changes(s));
  }

  /** The legend table of a tally whose legend has the codes `0..|ps|`,
      code k + 1 for the k-th pair of `ps`. */
  lemma LegendTable(st: Tally, ps: seq<Pair>)
    requires forall k :: k in st.classKey <==> 0 <= k <= |ps|
    requires UnchangedCode in st.classKey && st.classKey[UnchangedCode] == Unchanged
    requires forall k :: 0 <= k < |ps| ==> st.classKey[k + 1] == Transition(ps[k].0, ps[k].1)
    ensures var t := RasterTable(st);
      |t| == |ps| + 3 &&
      t[0] == [Text("Transition Class"), Text("Transition")] &&
      t[1] == [Text("-1 (nodata)"), Text("nodata to nodata")] &&
      t[2] == [Number(UnchangedCode), Text("unchanged")] &&
      forall k :: 0 <= k < |ps| ==> t[k + 3] == [Number(k + 1), Text(Label(ps[k].0, ps[k].1))]
  {
    var keys := SortedValues(st.classKey.Keys);
    IncreasingRange(keys, |ps|);
    LegendRows(st, ps, keys);
    var t := RasterTable(st);
    var rows := ClassRows(st, keys);
    assert t == [t[0], t[1]] + rows;
    assert forall k :: 0 <= k < |rows| ==> t[k + 2] == rows[k];
  }

  /** The legend rows of the changed pairs `ps` over the codes `0..|ps|`:
      code 0, then code k + 1 for the k-th pair. */
  lemma LegendRows(st: Tally, ps: seq<Pair>, keys: seq<int>)
    requires forall k :: k in st.classKey <==> 0 <= k <= |ps|
    requires UnchangedCode in st.classKey && st.classKey[UnchangedCode] == Unchanged
    requires forall k :: 0 <= k < |ps| ==> st.classKey[k + 1] == Transition(ps[k].0, ps[k].1)
    requires |keys| == |ps| + 1 && forall i :: 0 <= i < |keys| ==> keys[i] == i
    ensures forall i :: 0 <= i < |keys| ==> keys[i] in st.classKey
    ensures var rows := ClassRows(st, keys);
      |rows| == |ps| + 1 && rows[0] == [Number(UnchangedCode), Text("unchanged")] &&
      forall k :: 0 <= k < |ps| ==> rows[k + 1] == [Number(k + 1), Text(Label(ps[k].0, ps[k].1))]
  {
  }

  /** Lines 147-149 and 186-199: masking happens after coding, so a changed
      pair seen only where both inputs are nodata still has a code and a
      legend entry, even though its pixels are written as -1. */
  lemma PairCoded(st: Tally, s: seq<Pair>, f: int, t: int)
    requires Coded(st, s) && (f, t) in s && f != t
    ensures (f, t) in st.codes && st.codes[(f, t)] in st.classKey
    ensures st.classKey[st.codes[(f, t)]] == Transition(f, t)
  {
    var ps := Changes(s);
    ChangesMembers(s);
    var k :| 0 <= k < |ps| && ps[k] == (f, t);
    CodeTableValues(ps);
    ClassKeyLookup(ps);
  }
}
