/**
 * `std::map<UString, T>` as lt-print fills it: a sequence of entries kept
 * in strictly ascending key order, which is also the order its iterators
 * visit them in.
 */
module SortedTable {
  import opened UStrings

  datatype Entry<T> = Entry(name: UString, value: T)

  /** Keys strictly ascending: the map's ordering invariant, which also
      makes every key occur once. */
  predicate Ascending<T>(es: seq<Entry<T>>)
  {
    forall i, j :: 0 <= i < j < |es| ==> Less(es[i].name, es[j].name)
  }

  /** The keys of the entries. */
  function Names<T>(es: seq<Entry<T>>): set<UString>
  {
    if es == [] then {} else {es[0].name} + Names(es[1..])
  }

  lemma {:induction false} NameAt<T>(es: seq<Entry<T>>, n: UString)
    requires n in Names(es)
    ensures exists k :: 0 <= k < |es| && es[k].name == n
  {
    if es[0].name != n {
      NameAt(es[1..], n);
      var k :| 0 <= k < |es[1..]| && es[1..][k].name == n;
      assert es[k + 1].name == n;
    }
  }

  lemma {:induction false} NotInNames<T>(es: seq<Entry<T>>, n: UString)
    requires forall k :: 0 <= k < |es| ==> es[k].name != n
    ensures n !in Names(es)
  {
    if n in Names(es) {
      NameAt(es, n);
    }
  }

  lemma {:induction false} AtName<T>(es: seq<Entry<T>>, k: nat)
    requires k < |es|
    ensures es[k].name in Names(es)
  {
    if k > 0 {
      AtName(es[1..], k - 1);
    }
  }

  lemma NamesCons<T>(e: Entry<T>, es: seq<Entry<T>>)
    ensures Names([e] + es) == {e.name} + Names(es)
  {
    assert ([e] + es)[1..] == es;
  }

  /** The dictionary the entries stand for. */
  function ToMap<T>(es: seq<Entry<T>>): (m: map<UString, T>)
    ensures m.Keys == Names(es)
  {
    if es == [] then map[] else ToMap(es[1..])[es[0].name := es[0].value]
  }

  lemma ToMapCons<T>(e: Entry<T>, es: seq<Entry<T>>)
    ensures ToMap([e] + es) == ToMap(es)[e.name := e.value]
  {
    assert ([e] + es)[1..] == es;
  }

  /** A name below every key may go in front. */
  lemma PrependAscending<T>(e: Entry<T>, es: seq<Entry<T>>)
    requires Ascending(es)
    requires forall n :: n in Names(es) ==> Less(e.name, n)
    ensures Ascending([e] + es)
  {
    var s := [e] + es;
    forall i, j | 0 <= i < j < |s| ensures Less(s[i].name, s[j].name) {
      if i == 0 {
        assert s[j].name == es[j - 1].name;
        AtName(es, j - 1);
      }
    }
  }

  /** In an ascending table the first key is below all the others. */
  lemma HeadBelowRest<T>(es: seq<Entry<T>>)
    requires Ascending(es) && es != []
    ensures forall n :: n in Names(es[1..]) ==> Less(es[0].name, n)
  {
    forall n | n in Names(es[1..]) ensures Less(es[0].name, n) {
      NameAt(es[1..], n);
      var k :| 0 <= k < |es[1..]| && es[1..][k].name == n;
      assert es[k + 1].name == n;
    }
  }

  /** A name below the first key is below every key. */
  lemma BelowHead<T>(name: UString, es: seq<Entry<T>>)
    requires Ascending(es) && es != [] && Less(name, es[0].name)
    ensures forall n :: n in Names(es) ==> Less(name, n)
  {
    forall n | n in Names(es) ensures Less(name, n) {
      NameAt(es, n);
      var k :| 0 <= k < |es| && es[k].name == n;
      if k > 0 { LessTransitive(name, es[0].name, n); }
    }
  }

  /** The three ways Insert builds its result keep the table ascending and
      give it the intended names and dictionary. */
  lemma InsertReplacing<T>(es: seq<Entry<T>>, name: UString, t: T)
    requires Ascending(es) && es != [] && es[0].name == name
    ensures var r := [Entry(name, t)] + es[1..];
      Ascending(r) && Names(r) == Names(es) + {name} && ToMap(r) == ToMap(es)[name := t]
  {
    ReplacingAscending(es, name, t);
    NamesCons(Entry(name, t), es[1..]);
    ReplacingMap(es, name, t);
  }

  lemma ReplacingAscending<T>(es: seq<Entry<T>>, name: UString, t: T)
    requires Ascending(es) && es != [] && es[0].name == name
    ensures Ascending([Entry(name, t)] + es[1..])
  {
    HeadBelowRest(es);
    PrependAscending(Entry(name, t), es[1..]);
  }

  lemma ReplacingMap<T>(es: seq<Entry<T>>, name: UString, t: T)
    requires es != [] && es[0].name == name
    ensures ToMap([Entry(name, t)] + es[1..]) == ToMap(es)[name := t]
  {
    ToMapCons(Entry(name, t), es[1..]);
  }

  lemma InsertInFront<T>(es: seq<Entry<T>>, name: UString, t: T)
    requires Ascending(es) && (es == [] || Less(name, es[0].name))
    ensures var r := [Entry(name, t)] + es;
      Ascending(r) && Names(r) == Names(es) + {name} && ToMap(r) == ToMap(es)[name := t]
  {
    if es != [] {
      BelowHead(name, es);
    }
    NamesCons(Entry(name, t), es);
    ToMapCons(Entry(name, t), es);
    PrependAscending(Entry(name, t), es);
  }

  lemma InsertBehind<T>(es: seq<Entry<T>>, name: UString, t: T, rest: seq<Entry<T>>)
    requires Ascending(es) && es != [] && Less(es[0].name, name)
    requires Ascending(rest) && Names(rest) == Names(es[1..]) + {name}
    requires ToMap(rest) == ToMap(es[1..])[name := t]
    ensures var r := [es[0]] + rest;
      Ascending(r) && Names(r) == Names(es) + {name} && ToMap(r) == ToMap(es)[name := t]
  {
    BehindAscending(es, name, rest);
    NamesCons(es[0], rest);
    BehindMap(es, name, t, rest);
  }

  lemma BehindAscending<T>(es: seq<Entry<T>>, name: UString, rest: seq<Entry<T>>)
    requires Ascending(es) && es != [] && Less(es[0].name, name)
    requires Ascending(rest) && Names(rest) == Names(es[1..]) + {name}
    ensures Ascending([es[0]] + rest)
  {
    HeadBelowRest(es);
    PrependAscending(es[0], rest);
  }

  lemma BehindMap<T>(es: seq<Entry<T>>, name: UString, t: T, rest: seq<Entry<T>>)
    requires es != [] && Less(es[0].name, name)
    requires ToMap(rest) == ToMap(es[1..])[name := t]
    ensures ToMap([es[0]] + rest) == ToMap(es)[name := t]
  {
    var m, e := ToMap(es[1..]), es[0];
    assert e.name != name by {
      LessIrreflexive(name);
    }
    ToMapCons(e, rest);
    assert ToMap(es) == m[e.name := e.value];
    UpdatesCommute(m, name, t, e.name, e.value);
  }

  lemma UpdatesCommute<T>(m: map<UString, T>, k1: UString, v1: T, k2: UString, v2: T)
    requires k1 != k2
    ensures m[k1 := v1][k2 := v2] == m[k2 := v2][k1 := v1]
  {
  }

  /** `transducers[name]` followed by filling the entry with `t`: the entry
      for `name` is created in its place in the order when missing, and its
      value is replaced either way. */
  function Insert<T>(es: seq<Entry<T>>, name: UString, t: T): (r: seq<Entry<T>>)
    requires Ascending(es)
    ensures Ascending(r)
    ensures Names(r) == Names(es) + {name}
    ensures ToMap(r) == ToMap(es)[name := t]
  {
    if es == [] || Less(name, es[0].name) then
      InsertInFront(es, name, t);
      [Entry(name, t)] + es
    else if es[0].name == name then
      InsertReplacing(es, name, t);
      [Entry(name, t)] + es[1..]
    else
      LessTotal(name, es[0].name);
      var rest := Insert(es[1..], name, t);
      InsertBehind(es, name, t, rest);
      [es[0]] + rest
  }

  /** Filling the map with `pairs` one after the other, as the transducer
      loop does. */
  function InsertAll<T>(es: seq<Entry<T>>, pairs: seq<Entry<T>>): (r: seq<Entry<T>>)
    requires Ascending(es)
    ensures Ascending(r)
    ensures ToMap(r) == Overlay(ToMap(es), pairs)
    decreases pairs
  {
    if pairs == [] then es
    else InsertAll(Insert(es, pairs[0].name, pairs[0].value), pairs[1..])
  }

  /** Filling in one more pair after the others. */
  lemma {:induction false} InsertAllSnoc<T>(es: seq<Entry<T>>, pairs: seq<Entry<T>>, p: Entry<T>)
    requires Ascending(es)
    ensures InsertAll(es, pairs + [p]) == Insert(InsertAll(es, pairs), p.name, p.value)
    decreases pairs
  {
    if pairs == [] {
      assert pairs + [p] == [p];
    } else {
      assert (pairs + [p])[1..] == pairs[1..] + [p];
      InsertAllSnoc(Insert(es, pairs[0].name, pairs[0].value), pairs[1..], p);
    }
  }

  /** Reference semantics: assigning each pair into a dictionary in turn. */
  function Overlay<T>(m: map<UString, T>, pairs: seq<Entry<T>>): map<UString, T>
    decreases pairs
  {
    if pairs == [] then m else Overlay(m[pairs[0].name := pairs[0].value], pairs[1..])
  }

  /** The dictionary holds the names it started with and the names assigned. */
  lemma {:induction false} OverlayKeys<T>(m: map<UString, T>, pairs: seq<Entry<T>>)
    ensures Overlay(m, pairs).Keys == m.Keys + Names(pairs)
    decreases pairs
  {
    if pairs != [] {
      OverlayKeys(m[pairs[0].name := pairs[0].value], pairs[1..]);
    }
  }

  /** A name never assigned keeps its value. */
  lemma {:induction false} OverlayUntouched<T>(m: map<UString, T>, pairs: seq<Entry<T>>, n: UString)
    requires n in m && n !in Names(pairs)
    ensures n in Overlay(m, pairs) && Overlay(m, pairs)[n] == m[n]
    decreases pairs
  {
    if pairs != [] {
      OverlayUntouched(m[pairs[0].name := pairs[0].value], pairs[1..], n);
    }
  }

  /** Each name holds the value assigned to it last. */
  lemma {:induction false} OverlayLast<T>(m: map<UString, T>, pairs: seq<Entry<T>>, i: nat)
    requires i < |pairs|
    requires forall j :: i < j < |pairs| ==> pairs[j].name != pairs[i].name
    ensures pairs[i].name in Overlay(m, pairs)
    ensures Overlay(m, pairs)[pairs[i].name] == pairs[i].value
    decreases pairs
  {
    var m', rest := m[pairs[0].name := pairs[0].value], pairs[1..];
    if i == 0 {
      forall k | 0 <= k < |rest| ensures rest[k].name != pairs[0].name {
        assert rest[k] == pairs[k + 1];
      }
      NotInNames(rest, pairs[0].name);
      OverlayUntouched(m', rest, pairs[0].name);
    } else {
      forall j | i - 1 < j < |rest| ensures rest[j].name != rest[i - 1].name {
        assert rest[j] == pairs[j + 1];
      }
      OverlayLast(m', rest, i - 1);
    }
  }

  /** An ascending table has one entry per distinct name. */
  lemma {:induction false} OneEntryPerName<T>(es: seq<Entry<T>>)
    requires Ascending(es)
    ensures |ToMap(es)| == |es|
  {
    if es != [] {
      OneEntryPerName(es[1..]);
      assert es[0].name !in Names(es[1..]) by {
        if es[0].name in Names(es[1..]) {
          NameAt(es[1..], es[0].name);
          var k :| 0 <= k < |es[1..]| && es[1..][k].name == es[0].name;
          assert Less(es[0].name, es[k + 1].name);
          LessIrreflexive(es[0].name);
        }
      }
    }
  }
}
