// Sliding time windows: a deque that is trimmed at its old end, against the full history.

module Windows {

  datatype Stamped<T> = Stamped(item: T, at: real)

  /** The entries of a history that are not older than the cutoff. */
  function InWindow<T>(history: seq<Stamped<T>>, cutoff: real): seq<Stamped<T>> {
    if history == [] then []
    else
      var n := |history| - 1;
      InWindow(history[..n], cutoff) + if history[n].at >= cutoff then [history[n]] else []
  }

  ghost predicate InTimeOrder<T>(history: seq<Stamped<T>>) {
    forall i, j :: 0 <= i < j < |history| ==> history[i].at <= history[j].at
  }

  lemma {:induction false} InWindowConcat<T>(a: seq<Stamped<T>>, b: seq<Stamped<T>>, cutoff: real)
    ensures InWindow(a + b, cutoff) == InWindow(a, cutoff) + InWindow(b, cutoff)
  {
    if b == [] {
      assert a + b == a;
    } else {
      var n := |b| - 1;
      assert (a + b)[..|a + b| - 1] == a + b[..n];
      InWindowConcat(a, b[..n], cutoff);
    }
  }

  /** An entry is in the window exactly when it is in the history and young enough. */
  lemma {:induction false} InWindowMembers<T>(history: seq<Stamped<T>>, cutoff: real)
    ensures forall e :: e in InWindow(history, cutoff) <==> e in history && e.at >= cutoff
    ensures forall i :: 0 <= i < |InWindow(history, cutoff)| ==> InWindow(history, cutoff)[i] in history
  {
    if history != [] {
      var n := |history| - 1;
      InWindowMembers(history[..n], cutoff);
      assert history == history[..n] + [history[n]];
    }
  }

  /** Cutting twice is cutting at the later cutoff. */
  lemma {:induction false} InWindowTwice<T>(history: seq<Stamped<T>>, early: real, late: real)
    requires early <= late
    ensures InWindow(InWindow(history, early), late) == InWindow(history, late)
  {
    if history != [] {
      var n := |history| - 1;
      InWindowTwice(history[..n], early, late);
      var last := if history[n].at >= early then [history[n]] else [];
      InWindowConcat(InWindow(history[..n], early), last, late);
      assert [history[n]][..0] == [];
    }
  }

  lemma {:induction false} AllInWindow<T>(history: seq<Stamped<T>>, cutoff: real)
    requires forall i :: 0 <= i < |history| ==> history[i].at >= cutoff
    ensures InWindow(history, cutoff) == history
  {
    if history != [] {
      var n := |history| - 1;
      AllInWindow(history[..n], cutoff);
      assert history == history[..n] + [history[n]];
    }
  }

  lemma InTimeOrderTail<T>(d: seq<Stamped<T>>)
    requires InTimeOrder(d) && d != []
    ensures InTimeOrder(d[1..])
  {
  }

  /** Popping old entries from the front, as long as there are any, gives the window of a history
      in time order. */
  method Trim<T>(d: seq<Stamped<T>>, cutoff: real) returns (r: seq<Stamped<T>>)
    requires InTimeOrder(d)
    ensures r == InWindow(d, cutoff)
  {
    r := d;
    while r != [] && r[0].at < cutoff
      invariant InTimeOrder(r) && InWindow(r, cutoff) == InWindow(d, cutoff)
      decreases |r|
    {
      assert r == [r[0]] + r[1..];
      InWindowConcat([r[0]], r[1..], cutoff);
      assert [r[0]][..0] == [];
      InTimeOrderTail(r);
      r := r[1..];
    }
    AllInWindow(r, cutoff);
  }

  /** A window keeps the order of the history. */
  lemma {:induction false} InWindowInOrder<T>(history: seq<Stamped<T>>, cutoff: real)
    requires InTimeOrder(history)
    ensures InTimeOrder(InWindow(history, cutoff))
  {
    if history != [] {
      var n := |history| - 1;
      InWindowInOrder(history[..n], cutoff);
      InWindowMembers(history[..n], cutoff);
      var w := InWindow(history[..n], cutoff);
      forall i | 0 <= i < |w|
        ensures w[i].at <= history[n].at
      {
        assert w[i] in history[..n];
      }
    }
  }

  // The next entry of a history, seen from a window that was cut earlier.
  lemma NextInWindow<T>(history: seq<Stamped<T>>, early: real, e: Stamped<T>, late: real)
    requires early <= late && InTimeOrder(history + [e])
    ensures InWindow(InWindow(history, early) + [e], late) == InWindow(history + [e], late)
    ensures InTimeOrder(InWindow(history, early) + [e])
  {
    InWindowConcat(InWindow(history, early), [e], late);
    InWindowTwice(history, early, late);
    InWindowConcat(history, [e], late);
    OrderFront(history, e);
    InWindowInOrder(history, early);
    InWindowMembers(history, early);
    var w := InWindow(history, early);
    forall i | 0 <= i < |w|
      ensures w[i].at <= e.at
    {
      assert w[i] in history;
      var k :| 0 <= k < |history| && history[k] == w[i];
      assert (history + [e])[k] == history[k] && (history + [e])[|history|] == e;
    }
  }

  lemma OrderFront<T>(history: seq<Stamped<T>>, e: Stamped<T>)
    requires InTimeOrder(history + [e])
    ensures InTimeOrder(history)
  {
    forall i, j | 0 <= i < j < |history|
      ensures history[i].at <= history[j].at
    {
      assert (history + [e])[i] == history[i] && (history + [e])[j] == history[j];
    }
  }

  lemma OrderSnoc<T>(history: seq<Stamped<T>>, e: Stamped<T>)
    requires InTimeOrder(history) && forall x :: x in history ==> x.at <= e.at
    ensures InTimeOrder(history + [e])
  {
  }

  /** The first entry of a window is the oldest that is young enough. */
  lemma WindowStartsWithOldest<T>(history: seq<Stamped<T>>, cutoff: real)
    requires InTimeOrder(history) && InWindow(history, cutoff) != []
    ensures var oldest := InWindow(history, cutoff)[0];
      && oldest in history && oldest.at >= cutoff
      && forall x :: x in history && x.at >= cutoff ==> oldest.at <= x.at
  {
    var w := InWindow(history, cutoff);
    InWindowMembers(history, cutoff);
    InWindowInOrder(history, cutoff);
    assert w[0] in w;
  }

  // ── A deque that stands for a history ──

  /** From the cutoff on, the deque and the history hold the same. */
  ghost predicate SameFrom<T>(d: seq<Stamped<T>>, history: seq<Stamped<T>>, cutoff: real) {
    InTimeOrder(d) && InWindow(d, cutoff) == InWindow(history, cutoff)
  }

  lemma SameFromLater<T>(d: seq<Stamped<T>>, history: seq<Stamped<T>>, early: real, late: real)
    requires SameFrom(d, history, early) && early <= late
    ensures SameFrom(d, history, late)
  {
    InWindowTwice(d, early, late);
    InWindowTwice(history, early, late);
  }

  // Cutting the deque keeps it standing for the history.
  lemma SameFromCut<T>(d: seq<Stamped<T>>, history: seq<Stamped<T>>, cutoff: real)
    requires SameFrom(d, history, cutoff)
    ensures SameFrom(InWindow(d, cutoff), history, cutoff)
  {
    InWindowTwice(d, cutoff, cutoff);
    InWindowInOrder(d, cutoff);
  }

  lemma SameFromNext<T>(d: seq<Stamped<T>>, history: seq<Stamped<T>>, cutoff: real, e: Stamped<T>)
    requires SameFrom(d, history, cutoff) && forall x :: x in d ==> x.at <= e.at
    ensures SameFrom(d + [e], history + [e], cutoff)
  {
    InWindowConcat(d, [e], cutoff);
    InWindowConcat(history, [e], cutoff);
    OrderSnoc(d, e);
  }

  function Items(w: seq<Stamped<real>>): seq<real> {
    seq(|w|, i requires 0 <= i < |w| => w[i].item)
  }
}
