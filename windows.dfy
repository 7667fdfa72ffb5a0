/** Windows over the positions 0 .. n-1: a cursor starts at 0, each window is
    [start, min(start + size, n)), and the cursor advances by `step` until it
    reaches n. `chunkText` walks a string this way with step = size - overlap,
    and the batch embedder walks the chunk array this way with
    step = size = batchSize. */
module Windows {
  import opened Records

  /** The half-open range [lo, hi). `hi` lies below `lo` only when the window
      size is not positive. */
  datatype Window = Window(lo: nat, hi: int)

  /** The windows the cursor visits from `start` on. */
  function WindowsFrom(n: nat, size: int, step: nat, start: nat): (ws: seq<Window>)
    requires step > 0
    ensures forall k :: 0 <= k < |ws| ==> start <= ws[k].lo < n && ws[k].hi == Min(ws[k].lo + size, n)
    decreases n - start
  {
    if start >= n then []
    else [Window(start, Min(start + size, n))] + WindowsFrom(n, size, step, start + step)
  }

  lemma WindowsFromUnfold(n: nat, size: int, step: nat, start: nat)
    requires step > 0 && start < n
    ensures var ws := WindowsFrom(n, size, step, start);
      ws != [] && ws[0] == Window(start, Min(start + size, n)) && ws[1..] == WindowsFrom(n, size, step, start + step)
  {
  }

  predicate InWindow(w: Window, p: int)
  {
    w.lo <= p < w.hi
  }

  function AllWindows(n: nat, size: int, step: nat): seq<Window>
    requires step > 0
  {
    WindowsFrom(n, size, step, 0)
  }

  /** Consecutive windows start `step` apart. */
  lemma {:induction false} NextWindow(n: nat, size: int, step: nat, start: nat, k: nat)
    requires step > 0 && k + 1 < |WindowsFrom(n, size, step, start)|
    ensures WindowsFrom(n, size, step, start)[k + 1].lo == WindowsFrom(n, size, step, start)[k].lo + step
    decreases k
  {
    var ws := WindowsFrom(n, size, step, start);
    var rest := WindowsFrom(n, size, step, start + step);
    assert ws == [Window(start, Min(start + size, n))] + rest;
    if k > 0 {
      NextWindow(n, size, step, start + step, k - 1);
      assert ws[k] == rest[k - 1] && ws[k + 1] == rest[k];
    }
  }

  lemma MulSucc(k: int, step: int)
    ensures (k + 1) * step == k * step + step
  {
  }

  /** Closed form: window k starts at start + k * step, and the number of
      windows is the least count that carries the cursor to n or beyond. */
  lemma {:induction false} WindowsFromShape(n: nat, size: int, step: nat, start: nat)
    requires step > 0
    ensures var ws := WindowsFrom(n, size, step, start);
      && (|ws| > 0 <==> start < n)
      && start + |ws| * step >= n
      && (|ws| > 0 ==> start + (|ws| - 1) * step < n)
      && forall k :: 0 <= k < |ws| ==> ws[k] == Window(start + k * step, Min(start + k * step + size, n))
    decreases n - start
  {
    var ws := WindowsFrom(n, size, step, start);
    if start < n {
      var rest := WindowsFrom(n, size, step, start + step);
      WindowsFromShape(n, size, step, start + step);
      assert ws == [Window(start, Min(start + size, n))] + rest;
      forall k | 0 <= k < |ws|
        ensures ws[k] == Window(start + k * step, Min(start + k * step + size, n))
      {
        if k > 0 {
          MulSucc(k - 1, step);
          assert ws[k] == rest[k - 1];
        }
      }
      MulSucc(|rest|, step);
      if |rest| > 0 {
        MulSucc(|rest| - 1, step);
      }
    }
  }

  /** The number of windows is the least count that carries the cursor from
      0 to n or beyond. */
  lemma WindowCount(n: nat, size: int, step: nat)
    requires step > 0
    ensures var c := |AllWindows(n, size, step)|;
      (c > 0 <==> 0 < n) && c * step >= n && (c > 0 ==> (c - 1) * step < n)
  {
    WindowsFromShape(n, size, step, 0);
  }

  lemma WindowStart(n: nat, size: int, step: nat, k: nat)
    requires step > 0 && k < |AllWindows(n, size, step)|
    ensures AllWindows(n, size, step)[k].lo == k * step
  {
    WindowsFromShape(n, size, step, 0);
  }

  /** When no window is shorter than the step (size >= step), every position
      from `start` to n - 1 lies in some window. */
  lemma {:induction false} WindowsFromCover(n: nat, size: int, step: nat, start: nat, p: nat)
    requires step > 0 && size >= step
    requires start <= p < n
    ensures exists k :: 0 <= k < |WindowsFrom(n, size, step, start)| && InWindow(WindowsFrom(n, size, step, start)[k], p)
    decreases n - start
  {
    var ws := WindowsFrom(n, size, step, start);
    var rest := WindowsFrom(n, size, step, start + step);
    assert ws == [Window(start, Min(start + size, n))] + rest;
    if p < start + step {
      assert ws[0] == Window(start, Min(start + size, n));
      assert p < Min(start + size, n);
      assert 0 < |ws| && InWindow(ws[0], p);
    } else {
      WindowsFromCover(n, size, step, start + step, p);
      var k :| 0 <= k < |rest| && InWindow(rest[k], p);
      assert ws[k + 1] == rest[k];
    }
  }

  /** When no window is shorter than the step, the last window ends exactly
      at n. */
  lemma LastWindowEnds(n: nat, size: int, step: nat)
    requires step > 0 && size >= step
    ensures var ws := AllWindows(n, size, step);
      |ws| > 0 ==> ws[|ws| - 1].hi == n
  {
    var ws := AllWindows(n, size, step);
    WindowsFromShape(n, size, step, 0);
    if |ws| > 0 {
      MulSucc(|ws| - 1, step);
    }
  }

  /** With step == size the windows partition [0, n): they are contiguous,
      the first starts at 0, the last ends at n, and all but the last have
      exactly `size` elements. */
  lemma WindowsPartition(n: nat, size: nat, ws: seq<Window>)
    requires size > 0 && ws == AllWindows(n, size, size)
    ensures n == 0 <==> |ws| == 0
    ensures |ws| > 0 ==> ws[0].lo == 0 && ws[|ws| - 1].hi == n
    ensures forall k :: 0 <= k < |ws| - 1 ==> ws[k].hi == ws[k + 1].lo && ws[k].hi - ws[k].lo == size
    ensures forall k :: 0 <= k < |ws| ==> 0 < ws[k].hi - ws[k].lo <= size
  {
    WindowsFromUnfold0(n, size);
    LastWindowEnds(n, size, size);
    forall k | 0 <= k < |ws| - 1
      ensures ws[k].hi == ws[k + 1].lo && ws[k].hi - ws[k].lo == size
    {
      NextWindow(n, size, size, 0, k);
    }
  }

  lemma WindowsFromUnfold0(n: nat, size: nat)
    requires size > 0
    ensures var ws := AllWindows(n, size, size);
      (n == 0 <==> |ws| == 0) && (|ws| > 0 ==> ws[0].lo == 0)
  {
  }
}
