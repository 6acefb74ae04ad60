/** The page script `js/main.js`: the header shadow threshold, the
    testimonial carousel (a current index over the items, one of which is
    marked active, advanced by a timer and by two buttons) and the logo
    track, whose children are doubled so that the scrolling animation can
    loop. The DOM is reduced to the state the script writes: a flag per
    testimonial item, the header's `scrolled` class, and the track's list of
    children with its animation duration. */
module SiteScript {

  import opened Wrappers

  /** JavaScript `%` on integers, for the positive divisors the script
      uses: the remainder of division truncated toward zero, so it takes the
      sign of the dividend. For a non-negative dividend it is the usual
      remainder. */
  function JsRem(a: int, b: int): (r: int)
    requires b > 0
    ensures a >= 0 ==> r == a % b
    ensures a <= 0 ==> -b < r <= 0
  {
    if a >= 0 then a % b else -((-a) % b)
  }

  /** `(currentTestimonial + 1) % testimonialItems.length` */
  function NextIndex(c: int, n: int): (r: int)
    requires 0 <= c < n
    ensures 0 <= r < n
    ensures r == if c == n - 1 then 0 else c + 1
  {
    JsRem(c + 1, n)
  }

  /** `(currentTestimonial - 1 + testimonialItems.length) % testimonialItems.length` */
  function PrevIndex(c: int, n: int): (r: int)
    requires 0 <= c < n
    ensures 0 <= r < n
    ensures r == if c == 0 then n - 1 else c - 1
  {
    JsRem(c - 1 + n, n)
  }

  /** Moving back undoes moving forward, and the other way round. */
  lemma PrevUndoesNext(c: int, n: int)
    requires 0 <= c < n
    ensures PrevIndex(NextIndex(c, n), n) == c
    ensures NextIndex(PrevIndex(c, n), n) == c
  {
  }

  /** One flag per item, set for the item at `index` only. */
  function ActiveOnly(n: nat, index: int): (s: seq<bool>)
    ensures |s| == n
  {
    seq(n, j => j == index)
  }

  /** The number of active items. */
  function ActiveCount(s: seq<bool>): nat {
    if s == [] then 0 else ActiveCount(s[..|s| - 1]) + (if s[|s| - 1] then 1 else 0)
  }

  /** After `updateTestimonial(index)` exactly one item is active when the
      index is in range, and none otherwise. */
  lemma {:induction false} ExactlyOneActive(n: nat, index: int)
    ensures ActiveCount(ActiveOnly(n, index)) == if 0 <= index < n then 1 else 0
  {
    if n > 0 {
      var s := ActiveOnly(n, index);
      assert s[..n - 1] == ActiveOnly(n - 1, index);
      ExactlyOneActive(n - 1, index);
    }
  }

  /** Which handlers the script installs: the timer whenever there is more
      than one item, the buttons only when both buttons exist as well. When
      the page has no `.site-header`, the first `toggleHeaderShadow()` call
      throws before any handler is installed, so there are none. */
  datatype Installed = Installed(timer: bool, buttons: bool)

  function Install(n: int, prevPresent: bool, nextPresent: bool, headerPresent: bool): (h: Installed)
    ensures h.timer <==> headerPresent && n > 1
    ensures h.buttons <==> h.timer && prevPresent && nextPresent
  {
    if headerPresent && n > 1 then Installed(true, prevPresent && nextPresent) else Installed(false, false)
  }

  /** What can drive the carousel: the interval timer firing, or a click on
      the previous or the next button. */
  datatype Event = Tick | PrevClick | NextClick

  /** The event has an installed handler. */
  predicate Handled(h: Installed, e: Event) {
    match e
    case Tick => h.timer
    case PrevClick | NextClick => h.buttons
  }

  /** The event moves the carousel forward. */
  predicate Forward(h: Installed, e: Event) {
    Handled(h, e) && e != PrevClick
  }

  /** The index after one event. */
  function Step(c: int, n: int, h: Installed, e: Event): (r: int)
    requires 0 <= c < n
    ensures 0 <= r < n
  {
    if !Handled(h, e) then c
    else if e == PrevClick then PrevIndex(c, n)
    else NextIndex(c, n)
  }

  /** The index after a series of events, in order. */
  function Replay(c: int, n: int, h: Installed, events: seq<Event>): (r: int)
    requires 0 <= c < n
    ensures 0 <= r < n
    decreases |events|
  {
    if events == [] then c
    else Step(Replay(c, n, h, events[..|events| - 1]), n, h, events[|events| - 1])
  }

  /** Handled events moving forward and back. */
  function Forwards(h: Installed, events: seq<Event>): nat {
    if events == [] then 0
    else Forwards(h, events[..|events| - 1]) + (if Forward(h, events[|events| - 1]) then 1 else 0)
  }

  function Backwards(h: Installed, events: seq<Event>): nat {
    if events == [] then 0
    else Backwards(h, events[..|events| - 1])
         + (if Handled(h, events[|events| - 1]) && events[|events| - 1] == PrevClick then 1 else 0)
  }

  /** Whatever the order of the events, the carousel ends up as far from
      where it started as the forward moves exceed the backward ones,
      counted round the circle. */
  lemma {:induction false} ReplayOffset(c: int, n: int, h: Installed, events: seq<Event>)
    requires 0 <= c < n
    ensures Replay(c, n, h, events) == (c + Forwards(h, events) - Backwards(h, events)) % n
  {
    if events == [] {
      ModUnique(c, 0, c, n);
    } else {
      var init := events[..|events| - 1];
      var e := events[|events| - 1];
      ReplayOffset(c, n, h, init);
      var k := c + Forwards(h, init) - Backwards(h, init);
      var r := Replay(c, n, h, init);
      var d := if !Handled(h, e) then 0 else if e == PrevClick then -1 else 1;
      assert Forwards(h, events) - Backwards(h, events) == Forwards(h, init) - Backwards(h, init) + d;
      StepMod(r, n, h, e, d);
      if d != 0 {
        ModStep(k, d, n);
      }
    }
  }

  /** One step moves the index by `d` round the circle. */
  lemma StepMod(r: int, n: int, h: Installed, e: Event, d: int)
    requires 0 <= r < n
    requires d == if !Handled(h, e) then 0 else if e == PrevClick then -1 else 1
    ensures Step(r, n, h, e) == (r + d) % n
  {
    if r + d == n {
      ModUnique(r + d, 1, 0, n);
    } else if r + d == -1 {
      ModUnique(r + d, -1, n - 1, n);
    } else {
      ModUnique(r + d, 0, r + d, n);
    }
  }

  /** Stepping by one from a remainder is stepping from the number itself. */
  lemma ModStep(k: int, d: int, n: int)
    requires n > 0 && (d == 1 || d == -1)
    ensures (k % n + d) % n == (k + d) % n
  {
    var q, r := k / n, k % n;
    assert k == q * n + r;
    var s := r + d;
    if s == n {
      ModUnique(s, 1, 0, n);
      ModUnique(k + d, q + 1, 0, n);
    } else if s == -1 {
      ModUnique(s, -1, n - 1, n);
      ModUnique(k + d, q - 1, n - 1, n);
    } else {
      ModUnique(s, 0, s, n);
      ModUnique(k + d, q, s, n);
    }
  }

  /** The remainder is the only one in range. */
  lemma ModUnique(x: int, q: int, r: int, n: int)
    requires n > 0 && 0 <= r < n && x == q * n + r
    ensures x % n == r
  {
    var q', r' := x / n, x % n;
    assert x == q' * n + r';
    assert (q - q') * n == r' - r;
    if q > q' {
      MulAtLeast(q - q', n);
    } else if q < q' {
      MulAtLeast(q' - q, n);
    }
  }

  lemma MulAtLeast(a: int, n: int)
    requires a >= 1 && n > 0
    ensures a * n >= n
  {
  }

  /** With a single item (or none) no handler exists and nothing moves. */
  lemma SingleItemStill(c: int, n: int, prevPresent: bool, nextPresent: bool, headerPresent: bool,
                        events: seq<Event>)
    requires 0 <= c < n <= 1
    ensures Replay(c, n, Install(n, prevPresent, nextPresent, headerPresent), events) == c
  {
    ReplayOffset(c, n, Install(n, prevPresent, nextPresent, headerPresent), events);
  }

  /** The testimonial carousel: `currentTestimonial` and the `active` class
      of each item. */
  class Carousel {
    var current: int
    const items: array<bool>
    var handlers: Installed

    /** The script's state once it has run: the index starts at 0 and the
        items keep the classes the page gave them. */
    constructor (initial: seq<bool>, prevPresent: bool, nextPresent: bool, headerPresent: bool)
      ensures fresh(items)
      ensures current == 0 && items[..] == initial
      ensures handlers == Install(|initial|, prevPresent, nextPresent, headerPresent)
    {
      current := 0;
      items := new bool[|initial|](j requires 0 <= j < |initial| => initial[j]);
      handlers := Install(|initial|, prevPresent, nextPresent, headerPresent);
    }

    /** `updateTestimonial(index)`: item j is active exactly when j is the
        index. */
    method Update(index: int)
      modifies items
      ensures items[..] == ActiveOnly(items.Length, index)
    {
      var j := 0;
      while j < items.Length
        invariant 0 <= j <= items.Length
        invariant forall k :: 0 <= k < j ==> items[k] == (k == index)
      {
        items[j] := j == index;
        j := j + 1;
      }
    }

    /** `nextTestimonial` */
    method Next()
      requires 0 <= current < items.Length
      modifies this, items
      ensures current == NextIndex(old(current), items.Length)
      ensures items[..] == ActiveOnly(items.Length, current)
      ensures handlers == old(handlers)
    {
      current := JsRem(current + 1, items.Length);
      Update(current);
    }

    /** `prevTestimonial` */
    method Prev()
      requires 0 <= current < items.Length
      modifies this, items
      ensures current == PrevIndex(old(current), items.Length)
      ensures items[..] == ActiveOnly(items.Length, current)
      ensures handlers == old(handlers)
    {
      current := JsRem(current - 1 + items.Length, items.Length);
      Update(current);
    }

    /** One event: the timer's `nextTestimonial`, or a button's move, when
        its handler is installed; otherwise nothing happens. */
    method Dispatch(e: Event)
      requires 0 <= current < items.Length
      modifies this, items
      ensures current == Step(old(current), items.Length, handlers, e)
      ensures handlers == old(handlers)
      ensures Handled(handlers, e) ==> items[..] == ActiveOnly(items.Length, current)
      ensures !Handled(handlers, e) ==> items[..] == old(items[..])
    {
      if Handled(handlers, e) {
        if e == PrevClick {
          Prev();
        } else {
          Next();
        }
      }
    }

    /** A series of events, in order. The index follows `Replay`; once any
        handler has run, the active item is the current one. */
    method Run(events: seq<Event>)
      requires 0 <= current < items.Length
      modifies this, items
      ensures current == Replay(old(current), items.Length, handlers, events)
      ensures handlers == old(handlers)
      ensures (exists i :: 0 <= i < |events| && Handled(handlers, events[i])) ==>
        items[..] == ActiveOnly(items.Length, current)
      ensures (forall i :: 0 <= i < |events| ==> !Handled(handlers, events[i])) ==>
        items[..] == old(items[..])
    {
      var i := 0;
      while i < |events|
        invariant 0 <= i <= |events|
        invariant 0 <= current < items.Length
        invariant handlers == old(handlers)
        invariant current == Replay(old(current), items.Length, handlers, events[..i])
        invariant (exists k :: 0 <= k < i && Handled(handlers, events[k])) ==>
          items[..] == ActiveOnly(items.Length, current)
        invariant (forall k :: 0 <= k < i ==> !Handled(handlers, events[k])) ==>
          items[..] == old(items[..])
      {
        assert events[..i + 1][..i] == events[..i];
        Dispatch(events[i]);
        i := i + 1;
      }
      assert events[..i] == events;
    }
  }

  /** A logo in the track. A clone made by `cloneNode(true)` is equal to
      its original. */
  datatype Logo = Logo(id: nat)

  /** `#logoTrack`: its children and the animation duration its style
      holds, in seconds (`None` while the style sets none). */
  class LogoTrack {
    var children: seq<Logo>
    var duration: Option<int>

    constructor (logos: seq<Logo>)
      ensures children == logos && duration == None
    {
      children := logos;
      duration := None;
    }
  }

  /** `Math.max(18, logos.length * 3)` */
  function AnimationDuration(n: nat): (d: int)
    ensures d >= 18 && d >= 3 * n
    ensures d == 18 || d == 3 * n
  {
    if 3 * n > 18 then 3 * n else 18
  }

  /** `duplicateLogos`: a clone of every child is appended, in order, and
      the animation is given a duration that grows with the number of
      logos. An absent or empty track is left alone, and so is every track
      when the page has no `.site-header`: the script then stops at its
      first `toggleHeaderShadow()` call and never reaches this one. */
  method DuplicateLogos(track: LogoTrack?, headerPresent: bool)
    modifies track
    ensures track != null && headerPresent && old(track.children) != [] ==>
      track.children == old(track.children) + old(track.children)
      && track.duration == Some(AnimationDuration(|old(track.children)|))
    ensures track != null && (!headerPresent || old(track.children) == []) ==>
      track.children == old(track.children) && track.duration == old(track.duration)
  {
    if !headerPresent || track == null {
      return;
    }
    var logos := track.children;
    if |logos| == 0 {
      return;
    }
    var i := 0;
    while i < |logos|
      invariant 0 <= i <= |logos|
      invariant track.children == logos + logos[..i]
    {
      track.children := track.children + [logos[i]];
      i := i + 1;
    }
    track.duration := Some(AnimationDuration(|logos|));
  }

  /** `.site-header` and its `scrolled` class. */
  class Header {
    var scrolled: bool

    /** `toggleHeaderShadow`: the class is set past 40 pixels of scrolling
        and cleared otherwise, whatever it was before. */
    method ToggleShadow(scrollY: real)
      modifies this
      ensures scrolled <==> scrollY > 40.0
    {
      if scrollY > 40.0 {
        scrolled := true;
      } else {
        scrolled := false;
      }
    }
  }
}
