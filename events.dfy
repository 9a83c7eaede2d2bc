/** The discrete events the game loop reacts to while it drains fixed steps,
    and the display settings those events change: whether the game is still
    running, whether the window is full screen, and the size of the font. */
module Events {

  /** The window font size in windowed mode, in points. */
  const MinifiedFontSize: real := 25.0

  /** The key symbol that toggles full screen when it is released. */
  const ToggleKey: char := 'f'

  /** An event as polled from the event queue. Only two kinds matter to the
      loop: a quit request and a key release; every other kind is `Other`. */
  datatype Event = Quit | KeyUp(sym: char) | Other

  /** The part of the loop state that events change. */
  datatype Flags = Flags(running: bool, fullscreen: bool, fontSize: real)

  /** The font size used after a full-screen toggle: 1.5 times the windowed
      size when full screen, the windowed size otherwise. */
  function FontSizeFor(fullscreen: bool): (size: real)
    ensures size >= MinifiedFontSize
    ensures fullscreen <==> size > MinifiedFontSize
    ensures fullscreen ==> size * 2.0 == MinifiedFontSize * 3.0
  {
    if fullscreen then MinifiedFontSize * 1.5 else MinifiedFontSize
  }

  /** The font size chosen at start-up: the windowed size times
      `fullscreen * 0.5 + 1`, the boolean promoted to 0 or 1. */
  function StartupFontSize(fullscreen: bool): real
  {
    MinifiedFontSize * ((if fullscreen then 1.0 else 0.0) * 0.5 + 1.0)
  }

  /** The start-up formula and the toggle rule agree for both settings. */
  lemma StartupMatchesToggleRule(fullscreen: bool)
    ensures StartupFontSize(fullscreen) == FontSizeFor(fullscreen)
  {
  }

  /** The font size matches the full-screen setting. */
  predicate FontConsistent(f: Flags)
  {
    f.fontSize == FontSizeFor(f.fullscreen)
  }

  /** True of the one event that toggles full screen. */
  predicate IsToggle(e: Event)
  {
    e.KeyUp? && e.sym == ToggleKey
  }

  /** The effect of one polled event: a quit request stops the game; a
      release of the toggle key flips full screen and resizes the font to
      match; nothing else changes anything. */
  function AfterEvent(f: Flags, e: Event): (r: Flags)
    ensures r.running <==> f.running && e != Quit
    ensures !IsToggle(e) ==> r.fullscreen == f.fullscreen && r.fontSize == f.fontSize
    ensures IsToggle(e) ==> r.fullscreen == !f.fullscreen && FontConsistent(r)
    ensures FontConsistent(f) ==> FontConsistent(r)
  {
    match e
    case Quit => f.(running := false)
    case KeyUp(sym) =>
      if sym == ToggleKey then
        var fs := !f.fullscreen;
        f.(fullscreen := fs, fontSize := FontSizeFor(fs))
      else f
    case Other => f
  }

  /** The effect of polling the events `es` in order, starting from `f`. */
  function AfterEvents(f: Flags, es: seq<Event>): Flags
  {
    if es == [] then f else AfterEvent(AfterEvents(f, es[..|es| - 1]), es[|es| - 1])
  }

  /** How many releases of the toggle key `es` holds. */
  function ToggleCount(es: seq<Event>): nat
  {
    multiset(es)[KeyUp(ToggleKey)]
  }

  /** Polling `a` and then `b` is polling `a + b`. */
  lemma {:induction false} AfterEventsAppend(f: Flags, a: seq<Event>, b: seq<Event>)
    ensures AfterEvents(f, a + b) == AfterEvents(AfterEvents(f, a), b)
  {
    if b == [] {
      assert a + b == a;
    } else {
      var n := |b| - 1;
      assert (a + b)[..|a + b| - 1] == a + b[..n];
      assert (a + b)[|a + b| - 1] == b[n];
      AfterEventsAppend(f, a, b[..n]);
    }
  }

  /** Polling `es`, of which `a` is a prefix, is polling `a` and then the
      rest of `es`. */
  lemma AfterEventsPrefix(f: Flags, a: seq<Event>, es: seq<Event>)
    requires a <= es
    ensures AfterEvents(f, es) == AfterEvents(AfterEvents(f, a), es[|a|..])
  {
    AfterEventsAppend(f, a, es[|a|..]);
    assert a + es[|a|..] == es;
  }

  /** After polling `es` the game is still running exactly when it was
      running before and `es` holds no quit request: nothing sets it back. */
  lemma {:induction false} AfterEventsRunning(f: Flags, es: seq<Event>)
    ensures AfterEvents(f, es).running <==> f.running && Quit !in es
  {
    if es != [] {
      var n := |es| - 1;
      AfterEventsRunning(f, es[..n]);
      assert es == es[..n] + [es[n]];
      assert Quit in es <==> Quit in es[..n] || Quit == es[n];
    }
  }

  /** After polling `es` the window is full screen exactly when it was
      before and the toggle key was released an even number of times, or
      it was not and the key was released an odd number of times. */
  lemma {:induction false} AfterEventsFullscreen(f: Flags, es: seq<Event>)
    ensures AfterEvents(f, es).fullscreen <==> (f.fullscreen <==> ToggleCount(es) % 2 == 0)
  {
    if es != [] {
      var n := |es| - 1;
      AfterEventsFullscreen(f, es[..n]);
      assert es == es[..n] + [es[n]];
      assert multiset(es) == multiset(es[..n]) + multiset{es[n]};
      assert IsToggle(es[n]) <==> es[n] == KeyUp(ToggleKey);
    }
  }

  /** Polling keeps the font size matched to the full-screen setting. */
  lemma {:induction false} AfterEventsFontConsistent(f: Flags, es: seq<Event>)
    requires FontConsistent(f)
    ensures FontConsistent(AfterEvents(f, es))
  {
    if es != [] {
      AfterEventsFontConsistent(f, es[..|es| - 1]);
    }
  }

  /** Releasing the toggle key twice restores full screen and font size. */
  lemma ToggleTwice(f: Flags)
    requires FontConsistent(f)
    ensures AfterEvents(f, [KeyUp(ToggleKey), KeyUp(ToggleKey)]) == f
  {
    var once := [KeyUp(ToggleKey)];
    assert [KeyUp(ToggleKey), KeyUp(ToggleKey)][..1] == once;
    assert once[..0] == [];
    assert AfterEvents(f, once) == AfterEvent(f, KeyUp(ToggleKey));
  }
}
