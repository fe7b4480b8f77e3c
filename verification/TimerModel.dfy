/** The timer queue as a plain list: deadlines in order, equal deadlines in order of arrival. */
module TimerModel {

  const LAZY_DELAY := 300

  datatype Entry = Entry(id: nat, due: int, stamp: nat)

  // stamp numbers arrivals; next is the stamp of the next one.
  datatype Timers = Timers(entries: seq<Entry>, next: nat)

  predicate Earlier(a: Entry, b: Entry) {
    a.due < b.due || (a.due == b.due && a.stamp < b.stamp)
  }

  predicate Precedes(a: Entry, b: Entry) {
    Earlier(a, b) && a.id != b.id
  }

  // Strictly sorted by (due, stamp), at most one entry an id, and every stamp already handed out.
  ghost predicate Sorted(t: Timers) {
    && (forall i, j {:trigger Precedes(t.entries[i], t.entries[j])} ::
          0 <= i < j < |t.entries| ==> Precedes(t.entries[i], t.entries[j]))
    && (forall i {:trigger t.entries[i].stamp} :: 0 <= i < |t.entries| ==> t.entries[i].stamp < t.next)
  }

  // The first position from k on whose entry is later than due.
  function PlaceFrom(q: seq<Entry>, due: int, k: nat): (p: nat)
    requires k <= |q|
    ensures k <= p <= |q| && (p < |q| ==> due < q[p].due)
    decreases |q| - k
  {
    if k == |q| || due < q[k].due then k else PlaceFrom(q, due, k + 1)
  }

  // The number of leading entries that are not later than due.
  function Place(q: seq<Entry>, due: int): (p: nat)
    ensures p <= |q| && (p < |q| ==> due < q[p].due)
  {
    PlaceFrom(q, due, 0)
  }

  lemma {:induction false} PlaceIsFirst(q: seq<Entry>, due: int, k: nat, i: nat)
    requires k <= i < |q| && i < PlaceFrom(q, due, k)
    ensures q[i].due <= due
    decreases i - k
  {
    if i > k { PlaceIsFirst(q, due, k + 1, i); }
  }

  function Add(t: Timers, id: nat, due: int): Timers {
    var k := Place(t.entries, due);
    Timers(t.entries[..k] + [Entry(id, due, t.next)] + t.entries[k..], t.next + 1)
  }

  // The first position from k on whose entry is that of id.
  function FindFrom(q: seq<Entry>, id: nat, k: nat): (f: nat)
    requires k <= |q|
    ensures k <= f <= |q| && (f < |q| ==> q[f].id == id)
    decreases |q| - k
  {
    if k == |q| || q[k].id == id then k else FindFrom(q, id, k + 1)
  }

  // The position of the entry of id, or the length of the list.
  function Find(q: seq<Entry>, id: nat): (f: nat)
    ensures f <= |q| && (f < |q| ==> q[f].id == id)
  {
    FindFrom(q, id, 0)
  }

  predicate Has(t: Timers, id: nat) {
    Find(t.entries, id) < |t.entries|
  }

  function Remove(t: Timers, id: nat): Timers {
    var k := Find(t.entries, id);
    if k < |t.entries| then t.(entries := t.entries[..k] + t.entries[k + 1..]) else t
  }

  function DueOf(t: Timers, id: nat): int
    requires Has(t, id)
  {
    t.entries[Find(t.entries, id)].due
  }

  // The lazy rule: a timer already close enough to the new deadline stays as it is.
  function Rearm(t: Timers, id: nat, due: int): Timers {
    if Has(t, id) then
      if -LAZY_DELAY < due - DueOf(t, id) < LAZY_DELAY then t else Add(Remove(t, id), id, due)
    else Add(t, id, due)
  }

  lemma {:induction false} FindIsFirst(q: seq<Entry>, id: nat, k: nat, i: nat)
    requires k <= i < |q| && i < FindFrom(q, id, k)
    ensures q[i].id != id
    decreases i - k
  {
    if i > k { FindIsFirst(q, id, k + 1, i); }
  }

  lemma InOrder(t: Timers, i: nat, j: nat)
    requires Sorted(t) && i <= j < |t.entries|
    ensures i == j || Precedes(t.entries[i], t.entries[j])
  {
  }

  // An entry of a sorted list is the one its id finds.
  lemma FindUnique(t: Timers, k: nat)
    requires Sorted(t) && k < |t.entries|
    ensures Find(t.entries, t.entries[k].id) == k
  {
    var f := Find(t.entries, t.entries[k].id);
    if k < f { FindIsFirst(t.entries, t.entries[k].id, 0, k); }
    InOrder(t, f, k);
  }

  lemma HasEntry(t: Timers, e: Entry)
    requires Sorted(t) && e in t.entries
    ensures Has(t, e.id) && t.entries[Find(t.entries, e.id)] == e && DueOf(t, e.id) == e.due
  {
    var k :| 0 <= k < |t.entries| && t.entries[k] == e;
    FindUnique(t, k);
  }

  lemma AddMembers(t: Timers, id: nat, due: int)
    ensures forall e :: e in Add(t, id, due).entries <==> e in t.entries || e == Entry(id, due, t.next)
  {
    var k := Place(t.entries, due);
    assert t.entries == t.entries[..k] + t.entries[k..];
  }

  lemma LaterThan(t: Timers, due: int, i: nat)
    requires Sorted(t) && Place(t.entries, due) <= i < |t.entries|
    ensures due < t.entries[i].due
  {
    var k := Place(t.entries, due);
    InOrder(t, k, i);
  }

  lemma AddSorted(t: Timers, id: nat, due: int)
    requires Sorted(t) && !Has(t, id)
    ensures Sorted(Add(t, id, due))
  {
    var k, q, r := Place(t.entries, due), t.entries, Add(t, id, due).entries;
    forall i, j | 0 <= i < j < |r| ensures Precedes(r[i], r[j]) {
      var i', j' := if i < k then i else i - 1, if j < k then j else j - 1;
      if i == k {
        LaterThan(t, due, j');
        FindIsFirst(q, id, 0, j');
      } else if j == k {
        PlaceIsFirst(q, due, 0, i);
        FindIsFirst(q, id, 0, i);
        assert q[i].stamp < t.next;
      } else {
        assert Precedes(q[i'], q[j']);
      }
    }
    forall i | 0 <= i < |r| ensures r[i].stamp < t.next + 1 {
      assert i != k ==> q[if i < k then i else i - 1].stamp < t.next;
    }
  }

  lemma AddKeepsSorted(t: Timers, id: nat, due: int)
    requires Sorted(t) && !Has(t, id)
    ensures Sorted(Add(t, id, due)) && Has(Add(t, id, due), id) && DueOf(Add(t, id, due), id) == due
    ensures forall e :: e in Add(t, id, due).entries <==> e in t.entries || e == Entry(id, due, t.next)
  {
    AddSorted(t, id, due);
    AddMembers(t, id, due);
    var k, u := Place(t.entries, due), Add(t, id, due);
    assert u.entries[k] == Entry(id, due, t.next);
    FindUnique(u, k);
  }

  lemma RemoveSorted(t: Timers, id: nat)
    requires Sorted(t)
    ensures Sorted(Remove(t, id))
  {
    var k, q, r := Find(t.entries, id), t.entries, Remove(t, id).entries;
    if k < |q| {
      forall i, j | 0 <= i < j < |r| ensures Precedes(r[i], r[j]) {
        assert Precedes(q[if i < k then i else i + 1], q[if j < k then j else j + 1]);
      }
      forall i | 0 <= i < |r| ensures r[i].stamp < t.next {
        assert q[if i < k then i else i + 1].stamp < t.next;
      }
    }
  }

  lemma RemovedOther(t: Timers, id: nat, i: nat)
    requires Sorted(t) && i < |Remove(t, id).entries| && Has(t, id)
    ensures Remove(t, id).entries[i].id != id
  {
    var k := Find(t.entries, id);
    if i < k { InOrder(t, i, k); } else { InOrder(t, k, i + 1); }
  }

  lemma RemoveMembers(t: Timers, id: nat)
    requires Sorted(t)
    ensures forall e :: e in Remove(t, id).entries <==> e in t.entries && e.id != id
  {
    var k, q, r := Find(t.entries, id), t.entries, Remove(t, id).entries;
    forall e | e in q && e.id == id ensures k < |q| && e == q[k] {
      HasEntry(t, e);
    }
    if k < |q| {
      assert q == q[..k] + [q[k]] + q[k + 1..];
      forall i | 0 <= i < |r| ensures r[i].id != id {
        RemovedOther(t, id, i);
      }
    }
  }

  lemma RemoveKeepsSorted(t: Timers, id: nat)
    requires Sorted(t)
    ensures Sorted(Remove(t, id)) && !Has(Remove(t, id), id)
    ensures forall e :: e in Remove(t, id).entries <==> e in t.entries && e.id != id
  {
    var u := Remove(t, id);
    assert Has(u, id) ==> u.entries[Find(u.entries, id)] in u.entries;
    RemoveSorted(t, id);
    RemoveMembers(t, id);
  }

  // u is t with the timer of id, and only that one, (re)set to within the lazy delay of due.
  ghost predicate Rearmed(t: Timers, u: Timers, id: nat, due: int) {
    && Sorted(u) && Has(u, id) && -LAZY_DELAY < DueOf(u, id) - due < LAZY_DELAY
    && (forall e: Entry :: e in u.entries ==> e in t.entries || (e.id == id && e.due == due))
    && (forall i :: i != id && Has(t, i) ==> Has(u, i) && DueOf(u, i) == DueOf(t, i))
  }

  // Re-arming leaves one timer for id, within the lazy delay of the new deadline (at it, if none was set before),
  // and nobody else's timer changed.
  lemma RearmMeets(t: Timers, id: nat, due: int)
    requires Sorted(t)
    ensures Rearmed(t, Rearm(t, id, due), id, due)
    ensures !Has(t, id) ==> DueOf(Rearm(t, id, due), id) == due
  {
    if !Has(t, id) {
      AddKeepsSorted(t, id, due);
      KeptIn(t, Add(t, id, due), id);
    } else if !(-LAZY_DELAY < due - DueOf(t, id) < LAZY_DELAY) {
      RemoveKeepsSorted(t, id);
      AddKeepsSorted(Remove(t, id), id, due);
      KeptIn(t, Add(Remove(t, id), id, due), id);
    }
  }

  lemma RearmMeetsAs(t: Timers, id: nat, due: int, u: Timers)
    requires Sorted(t) && u == Rearm(t, id, due)
    ensures Rearmed(t, u, id, due) && (!Has(t, id) ==> DueOf(u, id) == due)
  {
    RearmMeets(t, id, due);
  }

  lemma NoEntry(t: Timers, id: nat)
    requires !Has(t, id)
    ensures forall e: Entry :: e in t.entries ==> e.id != id
  {
    forall k | 0 <= k < |t.entries| ensures t.entries[k].id != id {
      FindIsFirst(t.entries, id, 0, k);
    }
  }

  // The lazy rule, exactly. A timer less than 300 ms from the new deadline stays, its place and its arrival included.
  // Otherwise the old timer, if any, is gone, one at exactly the new deadline has arrived, and all others are as they
  // were.
  lemma RearmExactly(t: Timers, id: nat, due: int)
    requires Sorted(t)
    ensures var u := Rearm(t, id, due);
      if Has(t, id) && -300 < due - DueOf(t, id) < 300 then u == t
      else
        && Sorted(u) && Has(u, id) && DueOf(u, id) == due && u.next == t.next + 1
        && forall e: Entry :: e in u.entries <==> (e in t.entries && e.id != id) || e == Entry(id, due, t.next)
  {
    if !Has(t, id) {
      AddKeepsSorted(t, id, due);
      NoEntry(t, id);
    } else if !(-300 < due - DueOf(t, id) < 300) {
      RemoveKeepsSorted(t, id);
      AddKeepsSorted(Remove(t, id), id, due);
    }
  }

  lemma RearmDue(t: Timers, id: nat, due: int)
    requires Sorted(t)
    ensures var u := Rearm(t, id, due);
      if Has(t, id) && -300 < due - DueOf(t, id) < 300 then u == t else Has(u, id) && DueOf(u, id) == due
  {
    RearmExactly(t, id, due);
  }

  // Timers other than that of id are found unchanged in a list that holds the same entries for them.
  lemma KeptIn(t: Timers, u: Timers, id: nat)
    requires Sorted(t) && Sorted(u) && forall e: Entry :: e in t.entries && e.id != id ==> e in u.entries
    ensures forall i :: i != id && Has(t, i) ==> Has(u, i) && DueOf(u, i) == DueOf(t, i)
  {
    forall i | i != id && Has(t, i) ensures Has(u, i) && DueOf(u, i) == DueOf(t, i) {
      var e := t.entries[Find(t.entries, i)];
      assert e in t.entries;
      HasEntry(u, e);
    }
  }

  // A sorted list is determined by its set of entries: no other arrangement keeps arrivals in order.
  lemma {:induction false} SortedUnique(t: Timers, u: Timers)
    requires Sorted(t) && Sorted(u)
    requires forall e :: e in t.entries <==> e in u.entries
    ensures t.entries == u.entries
    decreases |t.entries|
  {
    assert u.entries != [] ==> u.entries[0] in u.entries;
    if t.entries != [] {
      var a := t.entries[0];
      assert a in u.entries;
      var i :| 0 <= i < |u.entries| && u.entries[i] == a;
      var b := u.entries[0];
      assert b in t.entries;
      var j :| 0 <= j < |t.entries| && t.entries[j] == b;
      InOrder(u, 0, i);
      InOrder(t, 0, j);
      TailSorted(t);
      TailSorted(u);
      var t', u' := t.(entries := t.entries[1..]), u.(entries := u.entries[1..]);
      forall e ensures e in t'.entries <==> e in u'.entries {
        TailMembers(t, e);
        TailMembers(u, e);
      }
      SortedUnique(t', u');
      assert t.entries == [a] + t'.entries && u.entries == [a] + u'.entries;
    }
  }

  lemma TailMembers(t: Timers, e: Entry)
    requires Sorted(t) && t.entries != []
    ensures e in t.entries[1..] <==> e in t.entries && e != t.entries[0]
  {
    if e in t.entries && e != t.entries[0] {
      var i :| 0 <= i < |t.entries| && t.entries[i] == e;
      assert t.entries[1..][i - 1] == e;
    }
    if e in t.entries[1..] {
      var i :| 0 <= i < |t.entries[1..]| && t.entries[1..][i] == e;
      assert Precedes(t.entries[0], t.entries[i + 1]);
    }
  }

  lemma TailSorted(t: Timers)
    requires Sorted(t) && t.entries != []
    ensures Sorted(t.(entries := t.entries[1..]))
  {
    var r := t.entries[1..];
    forall i, j | 0 <= i < j < |r| ensures Precedes(r[i], r[j]) {
      assert Precedes(t.entries[i + 1], t.entries[j + 1]);
    }
    forall i | 0 <= i < |r| ensures r[i].stamp < t.next {
      assert t.entries[i + 1].stamp < t.next;
    }
  }

  // The waiting time the queue asks for; None when nothing is armed.
  datatype Wait = Forever | For(ms: nat)

  function Waiting(t: Timers, now: int): Wait {
    if t.entries == [] then Forever
    else For(if t.entries[0].due > now then t.entries[0].due - now else 0)
  }

  // The wait is the least over all armed timers; nothing is due sooner, and something is due then.
  lemma WaitingIsLeast(t: Timers, now: int)
    requires Sorted(t) && t.entries != []
    ensures var d := Waiting(t, now).ms;
      && (forall e :: e in t.entries ==> d <= (if e.due > now then e.due - now else 0))
      && (exists e :: e in t.entries && d == (if e.due > now then e.due - now else 0))
      && (forall e :: e in t.entries ==> d == 0 || now + d <= e.due)
      && (exists e :: e in t.entries && e.due <= now + d)
  {
    assert t.entries[0] in t.entries;
    forall e | e in t.entries ensures t.entries[0].due <= e.due {
      var i :| 0 <= i < |t.entries| && t.entries[i] == e;
      InOrder(t, 0, i);
    }
  }
}
