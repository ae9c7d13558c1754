/**
 * The order in which the fallback path lists reused page images: Python's
 * stable `list.sort`, first keyed by the integer formed from a name's digits,
 * and, when some name has no digit (so `int('')` raises), by plain string order.
 * `Sort` is an insertion sort that serves as the reference definition of a
 * stable sort.
 */
module Ordering {
  import opened Text

  datatype Rule = Numeric | Lexical

  /** `int(''.join(filter(str.isdigit, f)))`, meaningful when `HasNumericKey(f)`. */
  function NumericKey(f: string): nat {
    DecimalValue(Digits(f))
  }

  predicate HasNumericKey(f: string) {
    Digits(f) != []
  }

  predicate Le(rule: Rule, a: string, b: string) {
    match rule
    case Numeric => NumericKey(a) <= NumericKey(b)
    case Lexical => LexLe(a, b)
  }

  lemma LeTotal(rule: Rule, a: string, b: string)
    ensures Le(rule, a, b) || Le(rule, b, a)
  {
    if rule == Lexical {
      LexLeTotal(a, b);
    }
  }

  lemma LeTransitive(rule: Rule, a: string, b: string, c: string)
    requires Le(rule, a, b) && Le(rule, b, c)
    ensures Le(rule, a, c)
  {
    if rule == Lexical {
      LexLeTransitive(a, b, c);
    }
  }

  predicate Sorted(rule: Rule, s: seq<string>) {
    forall i, j :: 0 <= i < j < |s| ==> Le(rule, s[i], s[j])
  }

  /** Puts `x` in front of the first element it does not exceed. */
  function Insert(rule: Rule, x: string, s: seq<string>): (r: seq<string>)
    ensures multiset(r) == multiset(s) + multiset{x}
  {
    if s == [] then [x]
    else if Le(rule, x, s[0]) then [x] + s
    else
      assert s == [s[0]] + s[1..];
      [s[0]] + Insert(rule, x, s[1..])
  }

  function Sort(rule: Rule, s: seq<string>): (r: seq<string>)
    ensures multiset(r) == multiset(s)
  {
    if s == [] then []
    else
      assert s == [s[0]] + s[1..];
      Insert(rule, s[0], Sort(rule, s[1..]))
  }

  lemma PrependSorted(rule: Rule, y: string, t: seq<string>)
    requires Sorted(rule, t)
    requires forall k :: 0 <= k < |t| ==> Le(rule, y, t[k])
    ensures Sorted(rule, [y] + t)
  {
    var r := [y] + t;
    forall i, j | 0 <= i < j < |r| ensures Le(rule, r[i], r[j]) {
      if i == 0 {
        assert r[j] == t[j - 1];
      } else {
        assert r[i] == t[i - 1] && r[j] == t[j - 1];
      }
    }
  }

  /** Every element of `Insert(rule, x, s)` is `x` or an element of `s`. */
  lemma {:induction false} InsertLowerBound(rule: Rule, y: string, x: string, s: seq<string>)
    requires Le(rule, y, x)
    requires forall k :: 0 <= k < |s| ==> Le(rule, y, s[k])
    ensures forall k :: 0 <= k < |Insert(rule, x, s)| ==> Le(rule, y, Insert(rule, x, s)[k])
  {
    if s != [] && !Le(rule, x, s[0]) {
      InsertLowerBound(rule, y, x, s[1..]);
    }
  }

  lemma {:induction false} InsertSorted(rule: Rule, x: string, s: seq<string>)
    requires Sorted(rule, s)
    ensures Sorted(rule, Insert(rule, x, s))
  {
    if s == [] {
    } else if Le(rule, x, s[0]) {
      forall k | 0 <= k < |s| ensures Le(rule, x, s[k]) {
        if k > 0 {
          LeTransitive(rule, x, s[0], s[k]);
        }
      }
      PrependSorted(rule, x, s);
    } else {
      var tail := s[1..];
      InsertSorted(rule, x, tail);
      LeTotal(rule, x, s[0]);
      InsertLowerBound(rule, s[0], x, tail);
      PrependSorted(rule, s[0], Insert(rule, x, tail));
    }
  }

  lemma {:induction false} SortSorted(rule: Rule, s: seq<string>)
    ensures Sorted(rule, Sort(rule, s))
  {
    if s != [] {
      SortSorted(rule, s[1..]);
      InsertSorted(rule, s[0], Sort(rule, s[1..]));
    }
  }

  /** The elements of `s` whose numeric key is `v`, in their order in `s`. */
  function Pick(s: seq<string>, v: nat): seq<string> {
    if s == [] then []
    else (if NumericKey(s[0]) == v then [s[0]] else []) + Pick(s[1..], v)
  }

  lemma PickCons(y: string, t: seq<string>, v: nat)
    ensures Pick([y] + t, v) == (if NumericKey(y) == v then [y] else []) + Pick(t, v)
  {
    assert ([y] + t)[0] == y && ([y] + t)[1..] == t;
  }

  /** The skipped head is not picked when `x`'s key is the one picked. */
  lemma InsertSkipStep(x: string, y: string, t: seq<string>, rest: seq<string>, v: nat)
    requires !Le(Numeric, x, y)
    requires Pick(t, v) == (if NumericKey(x) == v then [x] else []) + Pick(rest, v)
    ensures Pick([y] + t, v) == (if NumericKey(x) == v then [x] else []) + Pick([y] + rest, v)
  {
    PickCons(y, t, v);
    PickCons(y, rest, v);
    if NumericKey(x) == v {
      assert NumericKey(y) != v;
    }
  }

  lemma {:induction false} InsertPick(x: string, s: seq<string>, v: nat)
    ensures Pick(Insert(Numeric, x, s), v)
         == (if NumericKey(x) == v then [x] else []) + Pick(s, v)
  {
    if s == [] || Le(Numeric, x, s[0]) {
      PickCons(x, s, v);
    } else {
      InsertPick(x, s[1..], v);
      InsertSkipStep(x, s[0], Insert(Numeric, x, s[1..]), s[1..], v);
      assert s == [s[0]] + s[1..];
    }
  }

  /**
   * Stability: names with the same numeric key keep their relative order.
   */
  lemma {:induction false} SortStable(s: seq<string>, v: nat)
    ensures Pick(Sort(Numeric, s), v) == Pick(s, v)
  {
    if s != [] {
      SortStable(s[1..], v);
      InsertPick(s[0], Sort(Numeric, s[1..]), v);
    }
  }

  predicate AllNumeric(files: seq<string>) {
    forall f :: f in files ==> HasNumericKey(f)
  }

  /**
   * `files.sort(key=...)`, and `files.sort()` when the key raises for some name
   * (CPython leaves the list untouched when a key call raises).
   */
  function OrderFiles(files: seq<string>): seq<string> {
    if AllNumeric(files) then Sort(Numeric, files) else Sort(Lexical, files)
  }

  lemma OrderFilesSpec(files: seq<string>)
    ensures multiset(OrderFiles(files)) == multiset(files)
    ensures AllNumeric(files) ==> Sorted(Numeric, OrderFiles(files))
    ensures AllNumeric(files) ==> forall v :: Pick(OrderFiles(files), v) == Pick(files, v)
    ensures !AllNumeric(files) ==> Sorted(Lexical, OrderFiles(files))
  {
    if AllNumeric(files) {
      SortSorted(Numeric, files);
      forall v ensures Pick(OrderFiles(files), v) == Pick(files, v) {
        SortStable(files, v);
      }
    } else {
      SortSorted(Lexical, files);
    }
  }

  predicate StrictlyIncreasing(s: seq<string>) {
    forall i, j :: 0 <= i < j < |s| ==> NumericKey(s[i]) < NumericKey(s[j])
  }

  lemma HeadsAgree(a: seq<string>, b: seq<string>)
    requires StrictlyIncreasing(a) && Sorted(Numeric, b)
    requires multiset(a) == multiset(b) && a != []
    ensures b != [] && b[0] == a[0]
  {
    assert a[0] in multiset(b);
    var j :| 0 <= j < |b| && b[j] == a[0];
    assert b[0] in multiset(a);
    var i :| 0 <= i < |a| && a[i] == b[0];
    assert j == 0 || Le(Numeric, b[0], b[j]);
    assert NumericKey(a[i]) <= NumericKey(a[0]);
  }

  lemma TailMultiset(a: seq<string>, b: seq<string>)
    requires a != [] && b != [] && a[0] == b[0]
    requires multiset(a) == multiset(b)
    ensures multiset(a[1..]) == multiset(b[1..])
  {
    assert a == [a[0]] + a[1..] && b == [b[0]] + b[1..];
    assert multiset(a[1..]) == multiset(a) - multiset{a[0]};
    assert multiset(b[1..]) == multiset(b) - multiset{a[0]};
  }

  lemma TailsOrdered(a: seq<string>, b: seq<string>)
    requires StrictlyIncreasing(a) && Sorted(Numeric, b)
    requires a != [] && b != []
    ensures StrictlyIncreasing(a[1..]) && Sorted(Numeric, b[1..])
  {
    var a', b' := a[1..], b[1..];
    forall i, j | 0 <= i < j < |a'| ensures NumericKey(a'[i]) < NumericKey(a'[j]) {
      assert a'[i] == a[i + 1] && a'[j] == a[j + 1];
    }
    forall i, j | 0 <= i < j < |b'| ensures Le(Numeric, b'[i], b'[j]) {
      assert b'[i] == b[i + 1] && b'[j] == b[j + 1];
    }
  }

  /**
   * A list sorted by numeric key whose keys are all distinct is the only
   * sorted arrangement of its elements.
   */
  lemma {:induction false} SortedUnique(a: seq<string>, b: seq<string>)
    requires StrictlyIncreasing(a) && Sorted(Numeric, b)
    requires multiset(a) == multiset(b)
    ensures a == b
  {
    if a == [] {
      assert |b| == |multiset(b)| == 0;
    } else {
      HeadsAgree(a, b);
      TailMultiset(a, b);
      TailsOrdered(a, b);
      SortedUnique(a[1..], b[1..]);
      assert a == [a[0]] + a[1..] && b == [b[0]] + b[1..];
    }
  }
}
