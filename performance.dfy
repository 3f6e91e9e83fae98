/**
 * js/performance-utils.js: the window arithmetic of `virtualScroll`, the key bookkeeping of
 * `debounce` and `throttle`, and `cleanup`. Timers do not run by themselves here: a timer
 * firing is a step of its own.
 */
module Performance {
  import opened Wrappers

  /** The defaults of `virtualScroll`'s options. */
  const DefaultItemHeight: nat := 50
  const DefaultBuffer: nat := 5
  /** The key of the scroll handler's throttle (whose 16 ms expiry is the `ThrottleExpire` step). */
  const ScrollKey := "virtual-scroll"

  /** `Math.ceil(x / h)` on non-negative integers. */
  function CeilDiv(x: nat, h: nat): (q: nat)
    requires h > 0
    ensures q * h >= x && (q == 0 || (q - 1) * h < x)
  {
    var q := (x + h - 1) / h;
    assert q * h > x + h - 1 - h by {
      assert x + h - 1 == q * h + (x + h - 1) % h;
    }
    q
  }

  /** The rendered index range `[start, end)`. */
  datatype Window = Window(start: nat, end: nat)

  /** `startIndex` and `endIndex` of `updateVisibleItems` for `n` items. */
  function VisibleWindow(n: nat, scrollTop: nat, containerHeight: nat, itemHeight: nat, buffer: nat): (w: Window)
    requires itemHeight > 0
    ensures w.end <= n
    ensures w.start <= scrollTop / itemHeight
    ensures w.end == n || w.end == CeilDiv(scrollTop + containerHeight, itemHeight) + buffer
    ensures w.start > w.end ==> w.end == n
  {
    var first := scrollTop / itemHeight;
    var start := if first < buffer then 0 else first - buffer;
    var last := CeilDiv(scrollTop + containerHeight, itemHeight) + buffer;
    assert first <= CeilDiv(scrollTop + containerHeight, itemHeight) by {
      FloorLeCeil(scrollTop, scrollTop + containerHeight, itemHeight);
    }
    Window(start, if n < last then n else last)
  }

  lemma FloorLeCeil(a: nat, b: nat, h: nat)
    requires h > 0 && a <= b
    ensures a / h <= CeilDiv(b, h)
  {
    var q := CeilDiv(b, h);
    if a / h > q {
      assert a / h >= q + 1;
      MulMono(q + 1, a / h, h);
      assert false;
    }
  }

  lemma MulMono(x: nat, y: nat, h: nat)
    requires x <= y
    ensures x * h <= y * h
  {
  }

  /** An item lies in the viewport when its box `[i*h, (i+1)*h)` meets `[scrollTop, scrollTop+containerHeight)`. */
  predicate InViewport(i: nat, scrollTop: nat, containerHeight: nat, itemHeight: nat) {
    i * itemHeight < scrollTop + containerHeight && (i + 1) * itemHeight > scrollTop
  }

  /** Every item in the viewport lies in the rendered window, whatever the buffer. */
  lemma ViewportIsRendered(n: nat, scrollTop: nat, containerHeight: nat, itemHeight: nat, buffer: nat, i: nat)
    requires itemHeight > 0 && i < n && InViewport(i, scrollTop, containerHeight, itemHeight)
    ensures var w := VisibleWindow(n, scrollTop, containerHeight, itemHeight, buffer); w.start <= i < w.end
  {
    var h := itemHeight;
    var w := VisibleWindow(n, scrollTop, containerHeight, h, buffer);
    if scrollTop / h > i {
      MulMono(i + 1, scrollTop / h, h);
      assert false;
    }
    var q := CeilDiv(scrollTop + containerHeight, h);
    if q <= i {
      MulMono(q, i, h);
      assert false;
    }
  }

  /** An item element: its index, and its `top` and `height` in pixels. */
  datatype Placed = Placed(index: nat, top: nat, height: nat)

  /** What one `updateVisibleItems` puts in the container: spacer, items, spacer. */
  datatype Frame = Frame(topSpacer: nat, items: seq<Placed>, bottomSpacer: nat)

  /** The top spacer, the rendered items and the bottom spacer fill the container's total height exactly. */
  function Covered(f: Frame, itemHeight: nat): nat {
    f.topSpacer + |f.items| * itemHeight + f.bottomSpacer
  }

  /**
   * `f` is what `updateVisibleItems` puts in the container for this scroll position: a top spacer
   * of `start * h` pixels, the window's items in index order at `i * h`, and a bottom spacer of
   * `(n - end) * h` pixels.
   */
  predicate Renders(f: Frame, n: nat, scrollTop: nat, containerHeight: nat, itemHeight: nat, buffer: nat)
    requires itemHeight > 0
  {
    var w := VisibleWindow(n, scrollTop, containerHeight, itemHeight, buffer);
    f.topSpacer == w.start * itemHeight && f.bottomSpacer == (n - w.end) * itemHeight &&
    |f.items| == (if w.start < w.end then w.end - w.start else 0) &&
    forall k :: 0 <= k < |f.items| ==>
      f.items[k] == Placed(w.start + k, (w.start + k) * itemHeight, itemHeight)
  }

  /** A rendered frame holds an element for every item that meets the viewport. */
  lemma FrameShowsViewport(f: Frame, n: nat, scrollTop: nat, containerHeight: nat, itemHeight: nat, buffer: nat, i: nat)
    requires itemHeight > 0 && i < n && InViewport(i, scrollTop, containerHeight, itemHeight)
    requires Renders(f, n, scrollTop, containerHeight, itemHeight, buffer)
    ensures exists k :: 0 <= k < |f.items| && f.items[k] == Placed(i, i * itemHeight, itemHeight)
  {
    var w := VisibleWindow(n, scrollTop, containerHeight, itemHeight, buffer);
    ViewportIsRendered(n, scrollTop, containerHeight, itemHeight, buffer, i);
    assert f.items[i - w.start] == Placed(i, i * itemHeight, itemHeight);
  }

  /** `updateVisibleItems`: the `for` loop appends one element per index of the window. */
  method UpdateVisibleItems(n: nat, scrollTop: nat, containerHeight: nat, itemHeight: nat, buffer: nat)
    returns (f: Frame)
    requires itemHeight > 0
    ensures Renders(f, n, scrollTop, containerHeight, itemHeight, buffer)
  {
    var w := VisibleWindow(n, scrollTop, containerHeight, itemHeight, buffer);
    var items: seq<Placed> := [];
    var i := w.start;
    while i < w.end
      invariant w.start <= i && (i <= w.end || i == w.start)
      invariant |items| == i - w.start
      invariant forall k :: 0 <= k < |items| ==> items[k] == Placed(w.start + k, (w.start + k) * itemHeight, itemHeight)
    {
      items := items + [Placed(i, i * itemHeight, itemHeight)];
      i := i + 1;
    }
    f := Frame(w.start * itemHeight, items, (n - w.end) * itemHeight);
  }

  /**
   * When the window is not inverted the frame partitions the container's `n * itemHeight`
   * pixels; when it is (scrolled past the end of a list that shrank) nothing is rendered and
   * the top spacer alone is taller than the container.
   */
  lemma FramePartitions(n: nat, scrollTop: nat, containerHeight: nat, itemHeight: nat, buffer: nat, f: Frame)
    requires itemHeight > 0
    requires Renders(f, n, scrollTop, containerHeight, itemHeight, buffer)
    ensures var w := VisibleWindow(n, scrollTop, containerHeight, itemHeight, buffer);
            (w.start <= w.end ==> Covered(f, itemHeight) == n * itemHeight) &&
            (w.start > w.end ==> f.items == [] && f.bottomSpacer == 0 && f.topSpacer > n * itemHeight)
  {
    var w := VisibleWindow(n, scrollTop, containerHeight, itemHeight, buffer);
    var h := itemHeight;
    if w.start <= w.end {
      calc {
        Covered(f, h);
        w.start * h + (w.end - w.start) * h + (n - w.end) * h;
        { Distribute3(w.start, w.end - w.start, n - w.end, h); }
        (w.start + (w.end - w.start) + (n - w.end)) * h;
        n * h;
      }
    } else {
      MulMono(n + 1, w.start, h);
    }
  }

  lemma Distribute3(a: nat, b: nat, c: nat, h: nat)
    ensures a * h + b * h + c * h == (a + b + c) * h
  {
  }

  /** The rendered items sit edge to edge in index order. */
  lemma ItemsAreContiguous(f: Frame, start: nat, itemHeight: nat)
    requires forall k :: 0 <= k < |f.items| ==> f.items[k] == Placed(start + k, (start + k) * itemHeight, itemHeight)
    ensures forall k :: 0 <= k < |f.items| - 1 ==>
              f.items[k + 1].index == f.items[k].index + 1 && f.items[k + 1].top == f.items[k].top + f.items[k].height
  {
    forall k | 0 <= k < |f.items| - 1
      ensures f.items[k + 1].top == f.items[k].top + f.items[k].height
    {
      assert (start + k + 1) * itemHeight == (start + k) * itemHeight + itemHeight;
    }
  }

  /** A run of a wrapped function: its key and the invocation (the function with its arguments). */
  datatype Run = Run(key: string, call: nat)

  /** The three Maps of `PerformanceUtils` and the runs of the wrapped functions. */
  class Timers {
    /** `debounceTimers`: the pending invocation of each key. */
    var debounce: map<string, nat>
    /** `throttleTimers`: the keys whose throttle timer is pending. */
    var throttle: set<string>
    /** `observers`: created empty; the source only ever disconnects and clears it. */
    var observers: set<string>
    var runs: seq<Run>

    constructor ()
      ensures debounce == map[] && throttle == {} && observers == {} && runs == []
    {
      debounce := map[];
      throttle := {};
      observers := {};
      runs := [];
    }

    /** A call of a debounced function: it replaces the key's pending invocation and runs nothing. */
    method DebounceCall(key: string, call: nat)
      modifies this`debounce
      ensures debounce == old(debounce)[key := call]
    {
      debounce := debounce[key := call];
    }

    /** The debounce timer of `key` fires: its invocation runs and the key is removed. */
    method DebounceFire(key: string)
      modifies this`debounce, this`runs
      ensures key !in old(debounce) ==> unchanged(this)
      ensures key in old(debounce) ==>
                runs == old(runs) + [Run(key, old(debounce)[key])] && debounce == old(debounce) - {key}
    {
      if key !in debounce {
        return;
      }
      runs := runs + [Run(key, debounce[key])];
      debounce := debounce - {key};
    }

    /** A call of a throttled function: it runs iff its key has no pending timer, and then occupies the key. */
    method ThrottleCall(key: string, call: nat) returns (ran: bool)
      modifies this`throttle, this`runs
      ensures ran <==> key !in old(throttle)
      ensures ran ==> runs == old(runs) + [Run(key, call)]
      ensures !ran ==> runs == old(runs)
      ensures throttle == old(throttle) + {key}
    {
      ran := key !in throttle;
      if ran {
        runs := runs + [Run(key, call)];
        throttle := throttle + {key};
      }
    }

    /** The throttle timer of `key` fires and frees the key. */
    method ThrottleExpire(key: string)
      modifies this`throttle
      ensures throttle == old(throttle) - {key}
    {
      throttle := throttle - {key};
    }

    /** `cleanup`: every timer is cleared, so no pending invocation will run, and every observer goes. */
    method Cleanup()
      modifies this`debounce, this`throttle, this`observers
      ensures debounce == map[] && throttle == {} && observers == {}
    {
      debounce := map[];
      throttle := {};
      observers := {};
    }
  }

  /** A burst of debounced calls followed by the timer: only the last call runs. */
  method DebounceBurst(t: Timers, key: string, calls: seq<nat>)
    requires calls != []
    modifies t
    ensures t.runs == old(t.runs) + [Run(key, calls[|calls| - 1])]
    ensures key !in t.debounce
  {
    var k := 0;
    while k < |calls|
      invariant 0 <= k <= |calls|
      invariant t.runs == old(t.runs)
      invariant k > 0 ==> key in t.debounce && t.debounce[key] == calls[k - 1]
    {
      t.DebounceCall(key, calls[k]);
      k := k + 1;
    }
    t.DebounceFire(key);
  }

  /** A burst of throttled calls on a free key before its timer fires: only the first call runs. */
  method ThrottleBurst(t: Timers, key: string, calls: seq<nat>)
    requires calls != [] && key !in t.throttle
    modifies t
    ensures t.runs == old(t.runs) + [Run(key, calls[0])]
    ensures key in t.throttle
  {
    var ran := t.ThrottleCall(key, calls[0]);
    var k := 1;
    while k < |calls|
      invariant 1 <= k <= |calls|
      invariant t.runs == old(t.runs) + [Run(key, calls[0])] && key in t.throttle
    {
      ran := t.ThrottleCall(key, calls[k]);
      k := k + 1;
    }
  }

  /** After `cleanup` a timer that was pending before it runs nothing. */
  method CleanupCancels(t: Timers, key: string)
    modifies t
    ensures t.runs == old(t.runs) && t.debounce == map[]
  {
    t.Cleanup();
    t.DebounceFire(key);
  }

  /**
   * The list of `virtualScroll`: the scroll handler is throttled, so a scroll event that
   * comes while the key is occupied neither reads the new `scrollTop` nor re-renders.
   */
  class VirtualScroll {
    const n: nat
    const itemHeight: nat
    const buffer: nat
    const containerHeight: nat
    /** The container's `style.height`. */
    const totalHeight: nat
    var scrollTop: nat
    var frame: Frame
    const timers: Timers

    /** The container is `n * itemHeight` tall and shows the frame of the last position read. */
    predicate Valid()
      reads this
    {
      itemHeight > 0 && totalHeight == n * itemHeight &&
      Renders(frame, n, scrollTop, containerHeight, itemHeight, buffer)
    }

    /** `virtualScroll` with the options' values (50 and 5 when left out): the initial render at the top. */
    constructor (n: nat, containerHeight: nat, itemHeight: Option<nat>, buffer: Option<nat>, timers: Timers)
      requires itemHeight.None? || itemHeight.value > 0
      ensures Valid() && scrollTop == 0 && this.timers == timers && this.n == n
      ensures this.itemHeight == (if itemHeight.None? then DefaultItemHeight else itemHeight.value)
      ensures this.buffer == (if buffer.None? then DefaultBuffer else buffer.value)
      ensures this.containerHeight == containerHeight && totalHeight == n * this.itemHeight
      ensures Renders(frame, n, 0, containerHeight, this.itemHeight, this.buffer)
    {
      this.n := n;
      var h := if itemHeight.None? then DefaultItemHeight else itemHeight.value;
      this.itemHeight := h;
      var b := if buffer.None? then DefaultBuffer else buffer.value;
      this.buffer := b;
      this.containerHeight := containerHeight;
      this.totalHeight := n * h;
      this.timers := timers;
      scrollTop := 0;
      new;
      frame := UpdateVisibleItems(n, 0, containerHeight, h, b);
    }

    /** A scroll event with the container's current `scrollTop`. */
    method Scroll(position: nat, call: nat)
      requires Valid()
      modifies this`scrollTop, this`frame, timers`throttle, timers`runs
      ensures Valid()
      ensures ScrollKey in old(timers.throttle) ==> scrollTop == old(scrollTop) && frame == old(frame)
      ensures ScrollKey !in old(timers.throttle) ==>
                scrollTop == position && Renders(frame, n, position, containerHeight, itemHeight, buffer)
      ensures ScrollKey in timers.throttle
    {
      var ran := timers.ThrottleCall(ScrollKey, call);
      if ran {
        scrollTop := position;
        frame := UpdateVisibleItems(n, scrollTop, containerHeight, itemHeight, buffer);
      }
    }
  }
}
