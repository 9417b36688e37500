/** The component load-time monitor: an insertion-ordered map from name to
    start time (a JavaScript `Map`), with start, end and stats operations.
    The clock reading `performance.now()` is the explicit `now` parameter. */
module LoadMonitor {
  import opened Wrappers
  import Seqs

  datatype Entry = Entry(name: string, start: int)

  /** No name occurs twice, as in a `Map`. */
  predicate DistinctLabels(es: seq<Entry>) {
    forall i, j :: 0 <= i < j < |es| ==> es[i].name != es[j].name
  }

  /** The monitor's state: entries in first-insertion order. */
  type Timers = es: seq<Entry> | DistinctLabels(es) witness []

  datatype Stats = Stats(activeLoads: nat, components: seq<string>)

  /** The labels, in entry order. */
  function Labels(es: seq<Entry>): (r: seq<string>)
    ensures |r| == |es|
    ensures forall i :: 0 <= i < |es| ==> r[i] == es[i].name
  {
    if |es| == 0 then [] else [es[0].name] + Labels(es[1..])
  }

  /** Position of the entry for `name`, if any. */
  function IndexOf(es: seq<Entry>, name: string): (r: Option<nat>)
    ensures r.Some? ==> r.value < |es| && es[r.value].name == name
    ensures r.None? <==> forall j :: 0 <= j < |es| ==> es[j].name != name
  {
    Seqs.FirstIndex(es, (e: Entry) => e.name == name)
  }

  /** The start time recorded under `name` (`Map.get`). */
  function Get(m: Timers, name: string): (r: Option<int>)
    ensures r.None? <==> name !in Labels(m)
    ensures r.Some? ==> Entry(name, r.value) in m
  {
    match IndexOf(m, name)
    case None => None
    case Some(i) => Some(m[i].start)
  }

  /** In a well-formed state the entry at `i` is the one `Get` finds. */
  lemma GetAt(m: Timers, i: nat)
    requires i < |m|
    ensures Get(m, m[i].name) == Some(m[i].start)
  {
    var k := IndexOf(m, m[i].name).value;
    assert m[k].name == m[i].name;
    assert k == i;
  }

  /** Taking out the entry at `i` keeps the names distinct. */
  lemma RemoveAtDistinct(m: Timers, i: nat)
    requires i < |m|
    ensures DistinctLabels(Seqs.RemoveAt(m, i))
  {
    var r := Seqs.RemoveAt(m, i);
    forall a, b | 0 <= a < b < |r|
      ensures r[a].name != r[b].name
    {
      var a' := if a < i then a else a + 1;
      var b' := if b < i then b else b + 1;
      assert r[a] == m[a'] && r[b] == m[b'] && a' < b';
    }
  }

  /** Taking out the entry at `i` keeps every other name's start time. */
  lemma RemoveAtKeepsOthers(m: Timers, i: nat, l: string)
    requires i < |m| && l != m[i].name
    ensures DistinctLabels(Seqs.RemoveAt(m, i))
    ensures Get(Seqs.RemoveAt(m, i), l) == Get(m, l)
  {
    RemoveAtDistinct(m, i);
    if l in Labels(m) {
      var k := IndexOf(m, l).value;
      RemoveAtKeepsPresent(m, i, k);
    } else {
      RemoveAtKeepsAbsent(m, i, l);
    }
  }

  /** The present-name case of `RemoveAtKeepsOthers`. */
  lemma RemoveAtKeepsPresent(m: Timers, i: nat, k: nat)
    requires i < |m| && k < |m| && k != i
    ensures DistinctLabels(Seqs.RemoveAt(m, i))
    ensures Get(Seqs.RemoveAt(m, i), m[k].name) == Some(m[k].start)
  {
    RemoveAtDistinct(m, i);
    var r: Timers := Seqs.RemoveAt(m, i);
    var k' := if k < i then k else k - 1;
    assert r[k'] == m[k];
    GetAt(r, k');
  }

  /** The absent-name case of `RemoveAtKeepsOthers`. */
  lemma RemoveAtKeepsAbsent(m: Timers, i: nat, l: string)
    requires i < |m| && l !in Labels(m)
    ensures DistinctLabels(Seqs.RemoveAt(m, i))
    ensures Get(Seqs.RemoveAt(m, i), l).None?
  {
    RemoveAtDistinct(m, i);
    var r: Timers := Seqs.RemoveAt(m, i);
    forall a | 0 <= a < |r|
      ensures r[a].name != l
    {
      var a' := if a < i then a else a + 1;
      assert r[a] == m[a'];
      assert Labels(m)[a'] == m[a'].name;
    }
  }

  /** Taking out the only entry for a name leaves no entry for it. */
  lemma RemoveAtDropsName(m: Timers, i: nat)
    requires i < |m|
    ensures DistinctLabels(Seqs.RemoveAt(m, i))
    ensures m[i].name !in Labels(Seqs.RemoveAt(m, i))
  {
    RemoveAtDistinct(m, i);
    var r := Seqs.RemoveAt(m, i);
    forall a | 0 <= a < |r|
      ensures r[a].name != m[i].name
    {
      if a < i { assert r[a] == m[a]; } else { assert r[a] == m[a + 1]; }
    }
  }

  /** Overwriting the start time at `i` keeps names and order and changes
      only that name's time. */
  lemma SetAtFacts(m: Timers, i: nat, now: int)
    requires i < |m|
    ensures DistinctLabels(m[i := Entry(m[i].name, now)])
    ensures Labels(m[i := Entry(m[i].name, now)]) == Labels(m)
    ensures Get(m[i := Entry(m[i].name, now)], m[i].name) == Some(now)
    ensures forall l :: l != m[i].name ==> Get(m[i := Entry(m[i].name, now)], l) == Get(m, l)
  {
    var r: Timers := m[i := Entry(m[i].name, now)];
    assert Labels(r) == Labels(m);
    GetAt(r, i);
    forall l | l != m[i].name
      ensures Get(r, l) == Get(m, l)
    {
      match IndexOf(m, l)
      case None =>
      case Some(k) =>
        GetAt(m, k);
        GetAt(r, k);
    }
  }

  /** Appending an entry for a new name adds it last and changes no other
      name's time. */
  lemma AppendFacts(m: Timers, name: string, now: int)
    requires name !in Labels(m)
    ensures DistinctLabels(m + [Entry(name, now)])
    ensures Labels(m + [Entry(name, now)]) == Labels(m) + [name]
    ensures Get(m + [Entry(name, now)], name) == Some(now)
    ensures forall l :: l != name ==> Get(m + [Entry(name, now)], l) == Get(m, l)
  {
    var r: seq<Entry> := m + [Entry(name, now)];
    assert Labels(r) == Labels(m) + [name];
    assert forall k :: 0 <= k < |m| ==> Labels(m)[k] != name;
    assert DistinctLabels(r);
    GetAt(r, |m|);
    forall l | l != name
      ensures Get(r, l) == Get(m, l)
    {
      match IndexOf(m, l)
      case None =>
      case Some(k) =>
        GetAt(m, k);
        GetAt(r, k);
    }
  }

  /** Removing the entry at `i` drops its name and keeps every other name's
      time. */
  lemma RemoveFacts(m: Timers, i: nat)
    requires i < |m|
    ensures DistinctLabels(Seqs.RemoveAt(m, i))
    ensures Get(Seqs.RemoveAt(m, i), m[i].name).None?
    ensures forall l :: l != m[i].name ==> Get(Seqs.RemoveAt(m, i), l) == Get(m, l)
  {
    RemoveAtDropsName(m, i);
    forall l | l != m[i].name
      ensures Get(Seqs.RemoveAt(m, i), l) == Get(m, l)
    {
      RemoveAtKeepsOthers(m, i, l);
    }
  }

  /** `startTimer`: records `now` under `name`. A new name goes to the end;
      a name already present keeps its position and gets the new time. */
  function StartTimer(m: Timers, name: string, now: int): (r: Timers)
    ensures Get(r, name) == Some(now)
    ensures forall l :: l != name ==> Get(r, l) == Get(m, l)
    ensures Labels(r) == if name in Labels(m) then Labels(m) else Labels(m) + [name]
  {
    match IndexOf(m, name)
    case Some(i) =>
      SetAtFacts(m, i, now);
      m[i := Entry(name, now)]
    case None =>
      AppendFacts(m, name, now);
      m + [Entry(name, now)]
  }

  /** `endTimer`: when `name` holds a truthy (non-zero) start time, returns
      `now - start` and removes the entry; otherwise returns 0 and changes
      nothing. A start time of exactly 0 is falsy, so it is neither measured
      nor removed. */
  function EndTimer(m: Timers, name: string, now: int): (r: (int, Timers))
    ensures Get(m, name).None? || Get(m, name) == Some(0) ==> r == (0, m)
    ensures Get(m, name).Some? && Get(m, name).value != 0 ==>
      && r.0 == now - Get(m, name).value
      && Get(r.1, name).None?
      && (forall l :: l != name ==> Get(r.1, l) == Get(m, l))
      && |r.1| == |m| - 1
    ensures (forall i :: 0 <= i < |m| ==> m[i].start <= now) ==> r.0 >= 0
  {
    match IndexOf(m, name)
    case None => (0, m)
    case Some(i) =>
      GetAt(m, i);
      if m[i].start != 0 then
        RemoveFacts(m, i);
        (now - m[i].start, Seqs.RemoveAt(m, i))
      else (0, m)
  }

  /** `getStats`: the number of running timers and their names in
      first-insertion order. */
  function GetStats(m: Timers): (r: Stats)
    ensures r.activeLoads == |r.components| == |m|
    ensures forall i :: 0 <= i < |m| ==> r.components[i] == m[i].name
    ensures forall l :: l in r.components <==> Get(m, l).Some?
    ensures forall i, j :: 0 <= i < j < |r.components| ==> r.components[i] != r.components[j]
  {
    Stats(|m|, Labels(m))
  }

  /** Starting a timer for a new name and ending it with a truthy start time
      measures the elapsed time and restores the previous state exactly. */
  lemma StartThenEnd(m: Timers, name: string, t0: int, t1: int)
    requires name !in Labels(m) && t0 != 0
    ensures EndTimer(StartTimer(m, name, t0), name, t1) == (t1 - t0, m)
  {
    var s := StartTimer(m, name, t0);
    StartNew(m, name, t0);
    assert s[|m|] == Entry(name, t0);
    EndPresent(s, |m|, t1);
    Seqs.RemoveAtLast(m, Entry(name, t0));
    assert EndTimer(s, name, t1).1 == m;
  }

  /** Ending the same name twice: the second call finds nothing and returns
      0. */
  lemma EndTwice(m: Timers, name: string, t1: int, t2: int)
    ensures EndTimer(EndTimer(m, name, t1).1, name, t2).0 == 0
  {
  }

  /** Starting a name the monitor does not hold appends its entry. */
  lemma StartNew(m: Timers, name: string, now: int)
    requires name !in Labels(m)
    ensures StartTimer(m, name, now) == m + [Entry(name, now)]
  {
    assert IndexOf(m, name).None?;
  }

  /** Ending the name held at position `i`, with a truthy start, measures
      from that start and takes out exactly that entry. */
  lemma EndPresent(m: Timers, i: nat, now: int)
    requires i < |m| && m[i].start != 0
    ensures EndTimer(m, m[i].name, now) == (now - m[i].start, Seqs.RemoveAt(m, i))
  {
    var k := IndexOf(m, m[i].name).value;
    assert m[k].name == m[i].name;
    assert k == i;
  }

  /** Two timers started on an empty monitor: the state holds both, in
      start order. */
  lemma StartTwo(a: string, b: string, ta: int, tb: int)
    requires a != b
    ensures StartTimer(StartTimer([], a, ta), b, tb) == [Entry(a, ta), Entry(b, tb)]
  {
    StartNew([], a, ta);
    Seqs.AppendToEmpty(Entry(a, ta));
    LabelsOfOne(Entry(a, ta));
    StartNew([Entry(a, ta)], b, tb);
    Seqs.AppendToSingleton(Entry(a, ta), Entry(b, tb));
  }

  lemma LabelsOfOne(x: Entry)
    ensures Labels([x]) == [x.name]
  {
  }

  /** Two timers started on an empty monitor are reported in start order. */
  lemma StatsInStartOrder(a: string, b: string, ta: int, tb: int)
    requires a != b
    ensures GetStats(StartTimer(StartTimer([], a, ta), b, tb)) == Stats(2, [a, b])
  {
    StartTwo(a, b, ta, tb);
    LabelsOfTwo(Entry(a, ta), Entry(b, tb));
  }

  lemma LabelsOfTwo(x: Entry, y: Entry)
    ensures Labels([x, y]) == [x.name, y.name]
  {
    assert [x, y][1..] == [y];
  }

  /** Ending the first of two timers leaves only the second. */
  lemma StatsAfterEndingFirst(a: string, b: string, ta: int, tb: int, tEnd: int)
    requires a != b && ta != 0
    ensures GetStats(EndTimer(StartTimer(StartTimer([], a, ta), b, tb), a, tEnd).1) == Stats(1, [b])
  {
    StartTwo(a, b, ta, tb);
    EndPresent([Entry(a, ta), Entry(b, tb)], 0, tEnd);
    RemoveFirstOfTwo(Entry(a, ta), Entry(b, tb));
  }

  lemma RemoveFirstOfTwo(x: Entry, y: Entry)
    ensures Seqs.RemoveAt([x, y], 0) == [y]
    ensures Labels([y]) == [y.name]
  {
    LabelsOfOne(y);
  }
}
