/** The timer queue: wrapped deadlines in the red-black tree, kept equal to the plain list of TimerModel. */
module TimerQueues {
  import opened Words
  import opened RbTrees
  import opened TimerModel
  import opened Connections

  const NGX_TIMER_INFINITE: Word := WORD - 1

  // Every deadline of t is within half the clock's range of due.
  ghost predicate Near(t: Timers, due: int) {
    forall k :: 0 <= k < |t.entries| ==> -HALF < t.entries[k].due - due < HALF
  }

  // Near every deadline from now + lo to now + hi.
  ghost predicate Room(t: Timers, now: int, lo: nat, hi: nat) {
    forall k :: 0 <= k < |t.entries| ==>
      -HALF < t.entries[k].due - (now + hi) && t.entries[k].due - (now + lo) < HALF
  }

  lemma RoomIsNear(t: Timers, now: int, lo: nat, hi: nat, ms: nat)
    requires Room(t, now, lo, hi) && lo <= ms <= hi
    ensures Near(t, now + ms)
  {
  }

  lemma NearAfterRemove(t: Timers, id: nat, due: int)
    requires Sorted(t) && Near(t, due)
    ensures Near(Remove(t, id), due)
  {
    var k, r := Find(t.entries, id), Remove(t, id).entries;
    forall i | 0 <= i < |r| ensures -HALF < r[i].due - due < HALF {
      assert r[i] == t.entries[if i < k then i else i + 1];
    }
  }

  // The global tree and clock of ngx_event_timer.c; now is the unwrapped time, timers the list the tree stands for.
  class TimerQueue {
    const tree: RbTree
    var currentMsec: Word
    ghost var now: int
    ghost var timers: Timers

    constructor (sentinel: RbNode)
      modifies sentinel
      ensures Valid() && timers == Timers([], 0) && now == 0
      ensures tree.sentinel == sentinel && tree.Nodes == {} && fresh(tree)
    {
      tree := new RbTree(sentinel);
      currentMsec, now, timers := 0, 0, Timers([], 0);
    }

    // The k-th node of the tree carries the k-th timer of the list, its deadline wrapped.
    ghost predicate Carries()
      reads this, tree, tree.Nodes
    {
      && |timers.entries| == |tree.order|
      && (forall k :: 0 <= k < |tree.order| ==> tree.order[k] in tree.Nodes)
      && (forall k :: 0 <= k < |tree.order| ==>
            tree.order[k].owner == timers.entries[k].id && tree.order[k].key == Wrap(timers.entries[k].due))
    }

    // The tree is a red-black tree and spells out the sorted list.
    ghost predicate Valid()
      reads this, tree, tree.sentinel, tree.Nodes
    {
      tree.Valid() && Carries() && Sorted(timers) && currentMsec == Wrap(now)
    }

    lemma NodeIsFound(node: RbNode)
      requires Valid() && node in tree.Nodes
      ensures 0 <= node.at < |timers.entries| && Find(timers.entries, node.owner) == node.at
      ensures Has(timers, node.owner) && node.key == Wrap(DueOf(timers, node.owner))
    {
      assert tree.order[node.at] == node;
      assert timers.entries[node.at].id == node.owner;
      FindUnique(timers, node.at);
    }

    // Where the tree puts a key is where the list puts its deadline.
    lemma PlaceIsCut(due: int, key: Word, k: nat)
      requires Valid() && Near(timers, due) && key == Wrap(due) && k <= |tree.order| && tree.Cut(key, k)
      ensures k == Place(timers.entries, due)
    {
      var p := Place(timers.entries, due);
      forall i | 0 <= i < |tree.order| ensures Before(key, tree.order[i].key) <==> due < timers.entries[i].due {
        SignedDifference(due, timers.entries[i].due);
      }
      if k < p { PlaceIsFirst(timers.entries, due, 0, k); }
      assert k < |tree.order| ==> Before(key, tree.order[k].key);
      assert p < |tree.order| ==> Before(key, tree.order[p].key);
    }

    // Within half the clock's range, the sign test orders the live keys as their deadlines.
    lemma NearIsMonotone(due: int, key: Word)
      requires Valid() && Near(timers, due) && key == Wrap(due)
      ensures tree.Monotone(key)
    {
      forall i, j | 0 <= i < j < |tree.order| && Before(key, tree.order[i].key) ensures Before(key, tree.order[j].key) {
        SignedDifference(due, timers.entries[i].due);
        SignedDifference(due, timers.entries[j].due);
        assert Precedes(timers.entries[i], timers.entries[j]);
      }
    }

    // Dropping the k-th node and the k-th timer together.
    twostate lemma CarriesAfterDelete(k: nat)
      requires old(Carries()) && k < |old(tree.order)|
      requires tree.order == old(tree.order[..k]) + old(tree.order[k + 1..])
      requires timers.entries == old(timers.entries[..k]) + old(timers.entries[k + 1..])
      requires forall j :: 0 <= j < |tree.order| ==> tree.order[j] in tree.Nodes
      requires forall j :: 0 <= j < |old(tree.order)| && j != k ==> old(tree.order)[j].key == old(tree.order[j].key)
      ensures Carries()
    {
      forall j | 0 <= j < |tree.order|
        ensures tree.order[j].owner == timers.entries[j].id && tree.order[j].key == Wrap(timers.entries[j].due)
      {
        var i := if j < k then j else j + 1;
        assert tree.order[j] == old(tree.order)[i] && timers.entries[j] == old(timers.entries)[i];
      }
    }

    // ngx_event_del_timer.
    method DelTimer(c: Connection)
      requires Valid() && c.timer in tree.Nodes
      modifies `timers, tree, tree.sentinel, c.timer, c`timerSet, tree.Nodes`left, tree.Nodes`right, tree.Nodes`parent,
               tree.Nodes`red, tree.Nodes`at, tree.Nodes`lo, tree.Nodes`hi, tree.Nodes`bh
      ensures Valid() && timers == Remove(old(timers), c.timer.owner)
      ensures !c.timerSet && tree.Nodes == old(tree.Nodes) - {c.timer}
    {
      NodeIsFound(c.timer);
      RemoveKeepsSorted(timers, c.timer.owner);
      ghost var k := c.timer.at;
      tree.Delete(c.timer);
      c.timerSet := false;
      timers := Remove(timers, c.timer.owner);
      CarriesAfterDelete(k);
    }

    // Placing a node and a timer at the same position k.
    twostate lemma CarriesAfterInsert(k: nat, new node: RbNode, new entry: Entry)
      requires old(Carries()) && k <= |old(tree.order)|
      requires tree.order == old(tree.order[..k]) + [node] + old(tree.order[k..])
      requires timers.entries == old(timers.entries[..k]) + [entry] + old(timers.entries[k..])
      requires node.owner == entry.id && node.key == Wrap(entry.due)
      requires forall j :: 0 <= j < |tree.order| ==> tree.order[j] in tree.Nodes
      requires forall j :: 0 <= j < |old(tree.order)| ==> old(tree.order)[j].key == old(tree.order[j].key)
      ensures Carries()
    {
      forall j | 0 <= j < |tree.order|
        ensures tree.order[j].owner == timers.entries[j].id && tree.order[j].key == Wrap(timers.entries[j].due)
      {
        if j != k {
          var i := if j < k then j else j - 1;
          assert tree.order[j] == old(tree.order)[i] && timers.entries[j] == old(timers.entries)[i];
        }
      }
    }

    // The tail of ngx_event_add_timer: a node not in the tree gets its key and goes in.
    method Arm(c: Connection, key: Word, ghost due: int)
      requires Valid() && c.timer !in tree.Nodes && c.timer != tree.sentinel
      requires key == Wrap(due) && Near(timers, due) && !Has(timers, c.timer.owner)
      modifies `timers, tree, c.timer, c`timerSet, tree.Nodes`left, tree.Nodes`right, tree.Nodes`parent,
               tree.Nodes`red, tree.Nodes`at, tree.Nodes`lo, tree.Nodes`hi, tree.Nodes`bh
      ensures Valid() && timers == Add(old(timers), c.timer.owner, due)
      ensures c.timerSet && tree.Nodes == old(tree.Nodes) + {c.timer} && c.timer.key == key
    {
      NearIsMonotone(due, key);
      AddKeepsSorted(timers, c.timer.owner, due);
      c.timer.key := key;
      assert Valid() && tree.Monotone(key);
      forall p: nat | p <= |tree.order| && tree.Cut(key, p) ensures p == Place(timers.entries, due) {
        PlaceIsCut(due, key, p);
      }
      label L:
      ghost var k := tree.Insert(c.timer);
      c.timerSet := true;
      assert old@L(tree.Cut(key, k));
      timers := Add(timers, c.timer.owner, due);
      CarriesAfterInsert@L(k, c.timer, Entry(c.timer.owner, due, old(timers.next)));
    }

    // The wrapped deadline timer ms from now.
    method KeyFor(timer: nat) returns (key: Word)
      requires currentMsec == Wrap(now)
      ensures key == Wrap(now + timer)
    {
      key := Wrap(currentMsec + timer);
      WrapAdd(now, timer);
    }

    // A timer less than 300 ms from due is as it was, and with it the whole queue; otherwise it is set to due exactly.
    // No other node's key can have changed.
    twostate predicate LazilySet(node: RbNode, due: int)
      reads this, tree, node
    {
      if old(Has(timers, node.owner)) && -300 < due - old(DueOf(timers, node.owner)) < 300 then
        timers == old(timers) && tree.order == old(tree.order) && node.key == old(node.key)
      else Has(timers, node.owner) && DueOf(timers, node.owner) == due && node.key == Wrap(due)
    }

    // ngx_event_add_timer: timer ms from now, unless the timer already set is close enough to that.
    method AddTimer(c: Connection, timer: nat)
      requires Valid() && c.timer != tree.sentinel && Near(timers, now + timer)
      requires c.timerSet <==> c.timer in tree.Nodes
      requires c.timerSet <==> Has(timers, c.timer.owner)
      modifies `timers, tree, tree.sentinel, c.timer, c`timerSet, tree.Nodes`left, tree.Nodes`right, tree.Nodes`parent,
               tree.Nodes`red, tree.Nodes`at, tree.Nodes`lo, tree.Nodes`hi, tree.Nodes`bh
      ensures Valid() && timers == Rearm(old(timers), c.timer.owner, now + timer)
      ensures c.timerSet && tree.Nodes == old(tree.Nodes) + {c.timer}
      ensures LazilySet(c.timer, now + timer)
    {
      var key := KeyFor(timer);
      if c.timerSet {
        AddAgain(c, key, now + timer);
        return;
      }
      AddFirst(c, key, now + timer);
    }

    // The timer is not set: set it.
    method AddFirst(c: Connection, key: Word, ghost due: int)
      requires Valid() && c.timer !in tree.Nodes && c.timer != tree.sentinel && key == Wrap(due) && Near(timers, due)
      requires !Has(timers, c.timer.owner)
      modifies `timers, tree, tree.sentinel, c.timer, c`timerSet, tree.Nodes`left, tree.Nodes`right, tree.Nodes`parent,
               tree.Nodes`red, tree.Nodes`at, tree.Nodes`lo, tree.Nodes`hi, tree.Nodes`bh
      ensures Valid() && timers == Rearm(old(timers), c.timer.owner, due)
      ensures c.timerSet && tree.Nodes == old(tree.Nodes) + {c.timer} && LazilySet(c.timer, due)
    {
      RearmDue(timers, c.timer.owner, due);
      Arm(c, key, due);
    }

    // The timer is already set: leave it if it is close enough, and set it anew otherwise.
    method AddAgain(c: Connection, key: Word, ghost due: int)
      requires Valid() && c.timer in tree.Nodes && c.timer != tree.sentinel && key == Wrap(due) && Near(timers, due)
      requires c.timerSet && Has(timers, c.timer.owner)
      modifies `timers, tree, tree.sentinel, c.timer, c`timerSet, tree.Nodes`left, tree.Nodes`right, tree.Nodes`parent,
               tree.Nodes`red, tree.Nodes`at, tree.Nodes`lo, tree.Nodes`hi, tree.Nodes`bh
      ensures Valid() && timers == Rearm(old(timers), c.timer.owner, due)
      ensures c.timerSet && tree.Nodes == old(tree.Nodes) + {c.timer}
      ensures LazilySet(c.timer, due)
    {
      RearmDue(timers, c.timer.owner, due);
      ghost var nodes := tree.Nodes + {c.timer};
      var close := CloseEnough(c, key, due);
      if close {
        return;
      }
      Reset(c, key, due);
      assert tree.Nodes == nodes;
    }

    // The way through ngx_event_add_timer that deletes a timer before setting it anew.
    method Reset(c: Connection, key: Word, ghost due: int)
      requires Valid() && c.timer in tree.Nodes && c.timer != tree.sentinel && key == Wrap(due) && Near(timers, due)
      modifies `timers, tree, tree.sentinel, c.timer, c`timerSet, tree.Nodes`left, tree.Nodes`right, tree.Nodes`parent,
               tree.Nodes`red, tree.Nodes`at, tree.Nodes`lo, tree.Nodes`hi, tree.Nodes`bh
      ensures Valid() && timers == Add(Remove(old(timers), c.timer.owner), c.timer.owner, due)
      ensures c.timerSet && tree.Nodes == old(tree.Nodes) - {c.timer} + {c.timer} && c.timer.key == key
    {
      ghost var rest := Remove(timers, c.timer.owner);
      RemoveKeepsSorted(timers, c.timer.owner);
      NearAfterRemove(timers, c.timer.owner, due);
      DelTimer(c);
      assert timers == rest && Near(timers, due) && !Has(timers, c.timer.owner);
      Arm(c, key, due);
    }

    // The lazy test: does the timer already set differ by less than NGX_TIMER_LAZY_DELAY?
    method CloseEnough(c: Connection, key: Word, ghost due: int) returns (close: bool)
      requires Valid() && c.timer in tree.Nodes && key == Wrap(due) && Near(timers, due)
      ensures Has(timers, c.timer.owner)
      ensures close <==> -LAZY_DELAY < due - DueOf(timers, c.timer.owner) < LAZY_DELAY
    {
      var diff := Signed(Wrap(key - c.timer.key));
      NodeIsFound(c.timer);
      SignedDifference(due, DueOf(timers, c.timer.owner));
      close := (if diff >= 0 then diff else -diff) < LAZY_DELAY;
    }

    // ngx_event_find_timer: how long until the first deadline.
    method FindTimer() returns (wait: Word)
      requires Valid() && Near(timers, now)
      ensures wait == NGX_TIMER_INFINITE <==> timers.entries == []
      ensures timers.entries != [] ==> Waiting(timers, now) == For(wait)
    {
      if tree.root == tree.sentinel {
        return NGX_TIMER_INFINITE;
      }
      var node, path := tree.Min(tree.root);
      assert tree.order[0] == node;
      var timer := Signed(Wrap(node.key - currentMsec));
      SignedDifference(timers.entries[0].due, now);
      return if timer > 0 then timer else 0;
    }
  }
}
