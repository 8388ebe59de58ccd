/**
  The auxiliary window service (auxiliaryWindowService.ts): it asks the
  browser for a popup at the requested offset, wraps the new window in an
  `AuxWindow`, keeps the live windows in a set, and disposes them.
*/
module AuxiliaryWindowService {

  import opened Common
  import Decimal
  import opened AuxTitlebar

  /** `options.bounds`: `x` and `y` are `Some` exactly when they are numbers. */
  datatype Bounds = Bounds(x: Option<int>, y: Option<int>)

  /** `IAuxiliaryWindowOpenOptions`; the whole argument may be absent too. */
  datatype OpenOptions = OpenOptions(bounds: Option<Bounds>)

  /** The offset used when the caller gives none. */
  const DefaultOffset: int := 40

  /** `left`: `options.bounds.x` when it is a number, else 40. */
  function OffsetLeft(options: Option<OpenOptions>): (left: int)
    ensures options.Some? && options.value.bounds.Some? && options.value.bounds.value.x.Some? ==>
              left == options.value.bounds.value.x.value
    ensures !(options.Some? && options.value.bounds.Some? && options.value.bounds.value.x.Some?) ==>
              left == DefaultOffset
  {
    match options
    case Some(OpenOptions(Some(Bounds(Some(x), _)))) => x
    case _ => DefaultOffset
  }

  /** `top`: `options.bounds.y` when it is a number, else 40. */
  function OffsetTop(options: Option<OpenOptions>): (top: int)
    ensures options.Some? && options.value.bounds.Some? && options.value.bounds.value.y.Some? ==>
              top == options.value.bounds.value.y.value
    ensures !(options.Some? && options.value.bounds.Some? && options.value.bounds.value.y.Some?) ==>
              top == DefaultOffset
  {
    match options
    case Some(OpenOptions(Some(Bounds(_, Some(y))))) => y
    case _ => DefaultOffset
  }

  const FeaturesHead: string := "popup=yes,left="
  const TopKey: string := ",top="

  /** The features string handed to `window.open`: the browser reads both
      offsets back out of it exactly. */
  function PopupFeatures(left: int, top: int): (r: string)
  {
    FeaturesHead + Decimal.IntToString(left) + TopKey + Decimal.IntToString(top)
  }

  /** Index of the first `c` in `s`, if any. */
  function IndexOf(s: string, c: char): (r: Option<nat>)
    ensures r.Some? ==> r.value < |s| && s[r.value] == c && c !in s[..r.value]
    ensures r.None? ==> c !in s
  {
    if s == [] then None
    else if s[0] == c then Some(0)
    else
      match IndexOf(s[1..], c)
      case Some(i) => assert s[..i + 1] == [s[0]] + s[1..][..i]; Some(i + 1)
      case None => None
  }

  /** Reads the popup offsets back out of a features string of this shape. */
  function ParseFeatures(s: string): Option<(int, int)> {
    if |s| < |FeaturesHead| || s[..|FeaturesHead|] != FeaturesHead then None
    else
      var rest := s[|FeaturesHead|..];
      match IndexOf(rest, ',')
      case None => None
      case Some(k) =>
        var tail := rest[k..];
        if |tail| < |TopKey| || tail[..|TopKey|] != TopKey then None
        else
          match (Decimal.ParseInt(rest[..k]), Decimal.ParseInt(tail[|TopKey|..]))
          case (Some(l), Some(t)) => Some((l, t))
          case _ => None
  }

  /** The browser reads back exactly the offsets the service wrote. */
  lemma FeaturesRoundTrip(left: int, top: int)
    ensures ParseFeatures(PopupFeatures(left, top)) == Some((left, top))
  {
    var l, t := Decimal.IntToString(left), Decimal.IntToString(top);
    var s := FeaturesHead + l + TopKey + t;
    assert s == FeaturesHead + (l + TopKey + t);
    var rest := s[|FeaturesHead|..];
    assert rest == l + (TopKey + t);
    Decimal.IntToStringHasNoComma(left);
    IndexOfAfter(l, TopKey + t);
    assert rest[..|l|] == l;
    assert rest[|l|..] == TopKey + t;
    assert (TopKey + t)[|TopKey|..] == t;
    Decimal.ParseIntToString(left);
    Decimal.ParseIntToString(top);
  }

  /** The first comma of `a + b` is the first comma of `b` when `a` has none. */
  lemma {:induction false} IndexOfAfter(a: string, b: string)
    requires ',' !in a && |b| > 0 && b[0] == ','
    ensures IndexOf(a + b, ',') == Some(|a|)
    decreases |a|
  {
    if a != [] {
      assert (a + b)[1..] == a[1..] + b;
      IndexOfAfter(a[1..], b);
    } else {
      assert a + b == b;
    }
  }

  /** Example: `open({bounds: {x: 10, y: 20}})` asks for left 10 and top 20. */
  lemma FeaturesExampleWithBounds()
    ensures PopupFeatures(OffsetLeft(Some(OpenOptions(Some(Bounds(Some(10), Some(20)))))),
                          OffsetTop(Some(OpenOptions(Some(Bounds(Some(10), Some(20))))))) ==
            "popup=yes,left=10,top=20"
  {
  }

  /** Example: `open({})` asks for left 40 and top 40. */
  lemma FeaturesExampleDefault()
    ensures PopupFeatures(OffsetLeft(Some(OpenOptions(None))), OffsetTop(Some(OpenOptions(None)))) ==
            "popup=yes,left=40,top=40"
  {
  }



  /** `assertIsDefined` throws when `window.open` yields no window. */
  datatype OpenError = WindowUndefined

  class Service {
    /** `auxWindows`: the live windows. */
    var auxWindows: set<AuxWindow>
    /** The id counter shared by all windows. */
    const counter: IdCounter

    /** Every live window was numbered before the counter's current value. */
    ghost predicate Valid()
      reads this, counter, auxWindows
    {
      forall w :: w in auxWindows ==> w.id < counter.next
    }

    constructor (counter: IdCounter)
      ensures this.counter == counter && auxWindows == {} && Valid()
    {
      this.counter := counter;
      auxWindows := {};
    }

    /**
      `open`. `popupOpened` is whether `window.open` gave a window; without
      one the call fails and nothing changes. Otherwise the new window is
      added to the live set and nothing else leaves it; its id is larger
      than that of every live window. The features string asked for is
      returned too.
    */
    method Open(options: Option<OpenOptions>, popupOpened: bool, mainHead: seq<Node>, isBuilt: bool,
                userHasTitle: Option<bool>, titleBarStyle: TitleBarSetting, titleBarColor: string)
      returns (r: Result<AuxWindow, OpenError>, features: string)
      requires Valid()
      modifies this, counter
      ensures Valid()
      ensures features == PopupFeatures(OffsetLeft(options), OffsetTop(options))
      ensures !popupOpened ==>
                r == Err(WindowUndefined) && auxWindows == old(auxWindows) && counter.next == old(counter.next)
      ensures popupOpened ==>
                r.Ok? && fresh(r.value) && auxWindows == old(auxWindows) + {r.value} &&
                r.value.id == old(counter.next) && counter.next == old(counter.next) + 1 &&
                (forall w :: w in old(auxWindows) ==> w.id < r.value.id) &&
                r.value.isBuilt == isBuilt &&
                r.value.head == MetaTags(mainHead) + StyleNodes(mainHead) +
                                (if DrawsTitleBar(userHasTitle, titleBarStyle) then [] else [DragStyle]) &&
                r.value.containerChildren ==
                  (if DrawsTitleBar(userHasTitle, titleBarStyle) then [TitlebarPart(titleBarColor)] else []) &&
                r.value.registered && !r.value.disposed && !r.value.exitWindow && !r.value.handshakeDisposed &&
                r.value.pendingTimers == 0 && r.value.containerSize == None && r.value.log == []
    {
      features := PopupFeatures(OffsetLeft(options), OffsetTop(options));
      if !popupOpened {
        r := Err(WindowUndefined);
        return;
      }
      var w := new AuxWindow(counter, mainHead, isBuilt, userHasTitle, titleBarStyle, titleBarColor);
      auxWindows := auxWindows + {w};
      r := Ok(w);
    }

    /** `close`: the window leaves the live set (no other does) and is
        disposed: the first dispose unregisters it and closes it natively.
        Nothing else about the window changes. */
    method Close(w: AuxWindow)
      requires Valid()
      modifies this, w`disposed, w`registered, w`log
      ensures Valid()
      ensures auxWindows == old(auxWindows) - {w}
      ensures w.disposed
      ensures w.registered == (if old(w.disposed) then old(w.registered) else false)
      ensures w.log == old(w.log) + (if old(w.disposed) then [] else [NativeClose])
    {
      auxWindows := auxWindows - {w};
      w.Dispose();
    }

    /** `dispose`: every live window is disposed (once: one already disposed
        is left as it was, the others are unregistered and closed
        natively), then the set is emptied. Nothing else about the windows
        changes. */
    method Dispose()
      requires Valid()
      modifies this, auxWindows`disposed, auxWindows`registered, auxWindows`log
      ensures Valid() && auxWindows == {}
      ensures forall w :: w in old(auxWindows) ==> w.disposed
      ensures forall w :: w in old(auxWindows) ==>
                w.registered == (if old(w.disposed) then old(w.registered) else false)
      ensures forall w :: w in old(auxWindows) ==>
                w.log == old(w.log) + (if old(w.disposed) then [] else [NativeClose])
    {
      var rest := auxWindows;
      while rest != {}
        invariant rest <= auxWindows && auxWindows == old(auxWindows)
        invariant forall w :: w in auxWindows && w !in rest ==>
                    w.disposed && w.registered == (if old(w.disposed) then old(w.registered) else false) &&
                    w.log == old(w.log) + (if old(w.disposed) then [] else [NativeClose])
        invariant forall w :: w in rest ==>
                    w.disposed == old(w.disposed) && w.registered == old(w.registered) && w.log == old(w.log)
        decreases rest
      {
        var w :| w in rest;
        w.Dispose();
        rest := rest - {w};
      }
      auxWindows := {};
    }
  }

  /** Two windows opened one after the other get increasing ids, and both are live. */
  method OpenTwo(mainHead: seq<Node>) returns (first: nat, second: nat, live: nat)
    ensures first < second && live == 2
  {
    var counter := new IdCounter();
    var service := new Service(counter);
    var a, _ := service.Open(None, true, mainHead, true, None, Custom, "#ffffff");
    var b, _ := service.Open(Some(OpenOptions(Some(Bounds(Some(100), None)))), true, mainHead, true,
                             Some(false), Native, "#ffffff");
    first, second := a.value.id, b.value.id;
    assert a.value != b.value;
    live := |service.auxWindows|;
  }
}
