/**
  One auxiliary window (auxTitlebarPart.ts, class `AuxWindow`): how its
  document head is bootstrapped (meta tags, mirrored style sheets, the
  title-bar choice), the development-mode style observer, its disposal, and
  the two-phase close handshake between `beforeunload`, a posted message and
  a 100 ms timer.
*/
module AuxTitlebar {

  import opened Common
  import Decimal

  /**
    A node of a document head or of the workbench container, as a value.
    `tag` is the element's local name (lower case), so `tagName.toLowerCase()`
    is `tag`. A deep clone (`cloneNode(true)`) is equal to its original.
  */
  datatype Node = Element(tag: Tag, attrs: map<Attr, string>, text: string) | Text(data: string)

  /** The local names of the elements the model tells apart; `OtherTag`
      holds any other name. */
  datatype Tag = StyleTag | LinkTag | MetaTag | DivTag | OtherTag(name: string)

  /** The attribute names the model tells apart; `OtherAttr` holds any other name. */
  datatype Attr = Rel | HttpEquiv | Charset | ClassAttr | RoleAttr | StyleAttr | OtherAttr(name: string)

  /** Matches the selector `link[rel="stylesheet"], style`. */
  predicate IsStyleSheetOrStyle(n: Node) {
    n.Element? && (n.tag == StyleTag || (n.tag == LinkTag && Rel in n.attrs && n.attrs[Rel] == "stylesheet"))
  }

  predicate IsOtherNode(n: Node) {
    !IsStyleSheetOrStyle(n)
  }

  /** An `HTMLElement` whose lower-cased tag name is `style`. */
  predicate IsStyleElement(n: Node) {
    n.Element? && n.tag == StyleTag
  }

  /** `head.querySelectorAll('link[rel="stylesheet"], style')`, in document order. */
  function StyleNodes(s: seq<Node>): seq<Node> {
    Filter(IsStyleSheetOrStyle, s)
  }

  /** The nodes of a head that the style mirror leaves alone. */
  function OtherNodes(s: seq<Node>): seq<Node> {
    Filter(IsOtherNode, s)
  }

  /** The head `updateCSS` leaves behind: the old non-style nodes, then the
      source's style nodes in source order. */
  function Mirrored(target: seq<Node>, source: seq<Node>): seq<Node> {
    OtherNodes(target) + StyleNodes(source)
  }

  /**
    After mirroring, the style nodes of the target are exactly those of the
    source, in source order, and every other node of the target is kept in
    its order.
  */
  lemma MirrorIsExact(target: seq<Node>, source: seq<Node>)
    ensures StyleNodes(Mirrored(target, source)) == StyleNodes(source)
    ensures OtherNodes(Mirrored(target, source)) == OtherNodes(target)
  {
    var kept, copied := OtherNodes(target), StyleNodes(source);
    FilterAppend(IsStyleSheetOrStyle, kept, copied);
    FilterAppend(IsOtherNode, kept, copied);
    FilterNone(IsStyleSheetOrStyle, kept);
    FilterAll(IsStyleSheetOrStyle, copied);
    FilterAll(IsOtherNode, kept);
    FilterNone(IsOtherNode, copied);
  }

  /** Mirroring again from the same source changes nothing. */
  lemma MirrorIdempotent(target: seq<Node>, source: seq<Node>)
    ensures Mirrored(Mirrored(target, source), source) == Mirrored(target, source)
  {
    MirrorIsExact(target, source);
  }

  /** Taking one style node out of a head leaves its other nodes as they were. */
  lemma RemovingStyleKeepsOthers(h: seq<Node>, i: nat)
    requires i < |h| && IsStyleSheetOrStyle(h[i])
    ensures OtherNodes(h[..i] + h[i + 1..]) == OtherNodes(h)
  {
    assert h == h[..i] + [h[i]] + h[i + 1..];
    FilterAppend(IsOtherNode, h[..i] + [h[i]], h[i + 1..]);
    FilterAppend(IsOtherNode, h[..i], [h[i]]);
    FilterAppend(IsOtherNode, h[..i], h[i + 1..]);
    assert Filter(IsOtherNode, [h[i]]) == [] by {
      assert [h[i]][..0] == [];
    }
  }

  /** The meta tags are not touched by the style mirror. */
  lemma MirroringAfterMeta(mainHead: seq<Node>)
    ensures Mirrored(MetaTags(mainHead), mainHead) == MetaTags(mainHead) + StyleNodes(mainHead)
  {
    FilterAll(IsOtherNode, MetaTags(mainHead));
  }

  /** A mutation record as the `MutationObserver` delivers it. */
  datatype Mutation = ChildList(addedNodes: seq<Node>) | Attributes | CharacterData

  /** The nodes the development-mode observer copies from one batch of mutations. */
  function CopiedStyles(mutations: seq<Mutation>): seq<Node>
    decreases |mutations|
  {
    if mutations == [] then []
    else
      var last := mutations[|mutations| - 1];
      CopiedStyles(mutations[..|mutations| - 1]) +
      (if last.ChildList? then Filter(IsStyleElement, last.addedNodes) else [])
  }

  /** Everything the observer copies is a `style` element: an added
      `link rel="stylesheet"` or text node is never copied. */
  lemma {:induction false} CopiedAreStyleElements(mutations: seq<Mutation>)
    ensures forall n :: n in CopiedStyles(mutations) ==> IsStyleElement(n)
    decreases |mutations|
  {
    if mutations != [] {
      CopiedAreStyleElements(mutations[..|mutations| - 1]);
    }
  }

  /** Every `style` element added in a child-list mutation is copied. */
  lemma {:induction false} AddedStyleElementsAreCopied(mutations: seq<Mutation>, k: nat, n: Node)
    requires k < |mutations| && mutations[k].ChildList?
    requires n in mutations[k].addedNodes && IsStyleElement(n)
    ensures n in CopiedStyles(mutations)
    decreases |mutations|
  {
    var last := |mutations| - 1;
    if k == last {
      FilterKeeps(IsStyleElement, mutations[k].addedNodes, n);
    } else {
      assert mutations[..last][k] == mutations[k];
      AddedStyleElementsAreCopied(mutations[..last], k, n);
    }
  }

  /** A cross-window message; `type` and `content` are absent when the
      posted data has no such field. */
  datatype Message = Message(msgType: Option<string>, content: Option<string>)

  const UnloadType: string := "unloadAuxiliaryWindow"

  /** The message `beforeunload` posts for window `id`. */
  function UnloadMessage(id: nat): (m: Message)
    ensures IsUnloadFor(m, id)
  {
    Message(Some(UnloadType), Some(Decimal.NatToString(id)))
  }

  /** The `message` listener's test: the type matches and the content is `${this.id}`. */
  predicate IsUnloadFor(m: Message, id: nat) {
    m.msgType == Some(UnloadType) && m.content == Some(Decimal.NatToString(id))
  }

  /** A window reacts to the unload message posted for it and to no other window's. */
  lemma UnloadMessageAddressing(sender: nat, receiver: nat)
    ensures IsUnloadFor(UnloadMessage(sender), receiver) <==> sender == receiver
  {
    Decimal.NatToStringInjective(sender, receiver);
  }

  /** Width and height of a client area. */
  datatype Dimension = Dimension(width: int, height: int)

  /** What a window does that others can observe, in order. */
  datatype Output =
    | Posted(message: Message)      // window.postMessage on the main window
    | DidClose                      // _onDidClose.fire()
    | DidResize(dimension: Dimension)
    | NativeClose                   // auxiliaryWindow.close()
    | UnexpectedError(reason: string)

  /** The `meta charset="utf-8"` element `applyMeta` always appends. */
  const CharsetMeta: Node := Element(MetaTag, map[Charset := "utf-8"], "")

  predicate IsCspMeta(n: Node) {
    n.Element? && n.tag == MetaTag && HttpEquiv in n.attrs && n.attrs[HttpEquiv] == "Content-Security-Policy"
  }

  /** `document.querySelector('meta[http-equiv="Content-Security-Policy"]')` on
      the main document, modelled by its head: the index of the first match. */
  function FirstCsp(doc: seq<Node>): (r: Option<nat>)
    ensures r.Some? ==> r.value < |doc| && IsCspMeta(doc[r.value]) &&
                        forall j :: 0 <= j < r.value ==> !IsCspMeta(doc[j])
    ensures r.None? ==> forall i :: 0 <= i < |doc| ==> !IsCspMeta(doc[i])
  {
    if doc == [] then None
    else if IsCspMeta(doc[0]) then Some(0)
    else
      match FirstCsp(doc[1..])
      case Some(i) => Some(i + 1)
      case None => None
  }

  /** The meta elements `applyMeta` appends: the charset, then a new `meta`
      carrying the CSP element's attributes when the main document has one. */
  function MetaTags(mainHead: seq<Node>): (r: seq<Node>)
    ensures |r| >= 1 && r[0] == CharsetMeta
    ensures |r| == 2 <==> FirstCsp(mainHead).Some?
    ensures |r| == 2 ==> r[1] == Element(MetaTag, mainHead[FirstCsp(mainHead).value].attrs, "") && IsCspMeta(r[1])
    ensures |r| <= 2
  {
    match FirstCsp(mainHead)
    case Some(i) => [CharsetMeta, Element(MetaTag, mainHead[i].attrs, "")]
    case None => [CharsetMeta]
  }

  /** `window.auxWindow.hasTitle` is a boolean setting whose default is `true`. */
  const HasTitleDefault: bool := true

  /** The effective value of `window.auxWindow.hasTitle` given the user's value, if any. */
  function HasTitle(userValue: Option<bool>): bool {
    userValue.GetOr(HasTitleDefault)
  }

  lemma HasTitleDefaultsToTrue()
    ensures HasTitle(None)
  {
  }

  /** The constructor's branch: a title bar is drawn only when the setting
      is on and the title-bar style is `custom`. */
  predicate DrawsTitleBar(userHasTitle: Option<bool>, titleBarStyle: TitleBarSetting)
    ensures DrawsTitleBar(userHasTitle, titleBarStyle) ==> titleBarStyle == Custom
    ensures userHasTitle == Some(false) ==> !DrawsTitleBar(userHasTitle, titleBarStyle)
    ensures userHasTitle != Some(false) ==> (DrawsTitleBar(userHasTitle, titleBarStyle) <==> titleBarStyle == Custom)
  {
    HasTitle(userHasTitle) && titleBarStyle == Custom
  }

  /** The `style` element appended to the head when no title bar is drawn: it
      makes the tab strip the window's drag region. */
  const DragStyle: Node := Element(StyleTag, map[],
    ".tabs-container { -webkit-app-region: drag; }\n" +
    ".tab { -webkit-app-region: no-drag; }\n" +
    ".editor-group-container { width:100% - 136px; }\n")

  /** The `div.part.titlebar` element made in the main document and inserted
      as the container's first child. */
  function TitlebarPart(titleBarColor: string): Node {
    Element(DivTag, map[
      ClassAttr := "part titlebar",
      RoleAttr := "none",
      StyleAttr := "background-color: " + titleBarColor + ";height:30px; -webkit-app-region: drag;"], "")
  }

  /** The error `createElement` throws in an auxiliary document. */
  datatype CreateError = NotAllowedInChildWindow

  /** The module-level `counter` that hands out window ids. */
  class IdCounter {
    var next: nat

    constructor ()
      ensures next == 0
    {
      next := 0;
    }

    /** `counter++`: the current value, then one more for the next window. */
    method Take() returns (id: nat)
      modifies this
      ensures id == old(next) && next == id + 1
    {
      id := next;
      next := next + 1;
    }
  }

  class AuxWindow {
    /** `this.id`, from the counter. */
    const id: nat
    /** `environmentService.isBuilt`: no development-mode observer when built. */
    const isBuilt: bool
    /** Children of the auxiliary document's head. */
    var head: seq<Node>
    /** Children of the workbench container in the auxiliary body. */
    var containerChildren: seq<Node>
    /** The size last given to the container by a resize. */
    var containerSize: Option<Dimension>
    /** `registerWindow`: the window is listed among the platform's windows. */
    var registered: bool
    /** `disposables.isDisposed`. */
    var disposed: bool
    /** The handshake flag shared by the two listeners and the timer. */
    var exitWindow: bool
    /** `winDispose.isDisposed`: the `message` and `beforeunload` listeners are gone. */
    var handshakeDisposed: bool
    /** Timers started by unload messages and not yet run. */
    var pendingTimers: nat
    /** Everything observable the window has done. */
    var log: seq<Output>

    /** The development-mode observer is connected. */
    predicate Observing()
      reads this
    {
      !isBuilt && !disposed
    }

    /**
      The constructor: register the window, block `createElement`, append
      the meta tags, mirror the main head's style sheets, create the empty
      container, install the listeners, then either insert the title bar as
      the container's first child or append the drag style to the head. The
      id is the counter's value, and the counter moves on by one.
    */
    constructor (counter: IdCounter, mainHead: seq<Node>, isBuilt: bool,
                 userHasTitle: Option<bool>, titleBarStyle: TitleBarSetting, titleBarColor: string)
      modifies counter
      ensures id == old(counter.next) && counter.next == id + 1
      ensures this.isBuilt == isBuilt
      ensures head == MetaTags(mainHead) + StyleNodes(mainHead) +
                      (if DrawsTitleBar(userHasTitle, titleBarStyle) then [] else [DragStyle])
      ensures containerChildren ==
                (if DrawsTitleBar(userHasTitle, titleBarStyle) then [TitlebarPart(titleBarColor)] else [])
      ensures registered && !disposed && !exitWindow && !handshakeDisposed
      ensures pendingTimers == 0 && containerSize == None && log == []
    {
      this.isBuilt := isBuilt;
      registered := true;
      disposed := false;
      head := [];
      containerChildren := [];
      containerSize := None;
      log := [];
      exitWindow := false;
      handshakeDisposed := false;
      pendingTimers := 0;
      id := counter.next;
      new;
      BuildDocument(mainHead, DrawsTitleBar(userHasTitle, titleBarStyle), titleBarColor);
      var taken := counter.Take();
    }

    /** The document steps of the constructor, on an empty head and an empty
        container: `applyMeta`, `applyCSS`, then the title-bar branch. */
    method BuildDocument(mainHead: seq<Node>, draws: bool, titleBarColor: string)
      requires head == [] && containerChildren == []
      modifies this`head, this`containerChildren
      ensures head == MetaTags(mainHead) + StyleNodes(mainHead) + (if draws then [] else [DragStyle])
      ensures containerChildren == (if draws then [TitlebarPart(titleBarColor)] else [])
    {
      CopyHead(mainHead);
      ApplyTitleBarChoice(draws, titleBarColor);
    }

    /** `applyMeta` then `applyCSS` on an empty head: the meta tags, then a
        copy of every style sheet of the main head, in order. */
    method CopyHead(mainHead: seq<Node>)
      requires head == []
      modifies this`head
      ensures head == MetaTags(mainHead) + StyleNodes(mainHead)
    {
      ApplyMeta(mainHead);
      assert head == MetaTags(mainHead);
      UpdateCSS(mainHead);
      MirroringAfterMeta(mainHead);
    }

    /** `applyMeta`: the charset meta, then a copy of the main document's CSP
        meta when it has one, are appended to the head. */
    method ApplyMeta(mainHead: seq<Node>)
      modifies this`head
      ensures head == old(head) + MetaTags(mainHead)
    {
      head := head + [CharsetMeta];
      match FirstCsp(mainHead)
      case Some(i) => head := head + [Element(MetaTag, mainHead[i].attrs, "")];
      case None =>
    }

    /** The constructor's last branch: the title bar goes in as the
        container's first child when one is drawn; otherwise the drag style
        is appended to the head. */
    method ApplyTitleBarChoice(draws: bool, titleBarColor: string)
      modifies this`head, this`containerChildren
      ensures draws ==> head == old(head) && containerChildren == [TitlebarPart(titleBarColor)] + old(containerChildren)
      ensures !draws ==> head == old(head) + [DragStyle] && containerChildren == old(containerChildren)
    {
      if draws {
        containerChildren := [TitlebarPart(titleBarColor)] + containerChildren;
      } else {
        head := head + [DragStyle];
      }
    }

    /**
      `updateCSS`: remove every style sheet link and style element from this
      window's head, then append a clone of each one of `source`, in order.
    */
    method UpdateCSS(source: seq<Node>)
      modifies this`head
      ensures head == Mirrored(old(head), source)
    {
      RemoveStyles();
      AppendClones(StyleNodes(source));
    }

    /** The first loop of `updateCSS`: every style sheet link and style
        element leaves the head; the other nodes stay, in order. */
    method RemoveStyles()
      modifies this`head
      ensures head == OtherNodes(old(head))
    {
      var i := 0;
      while i < |head|
        invariant 0 <= i <= |head|
        invariant OtherNodes(head) == OtherNodes(old(head))
        invariant forall k :: 0 <= k < i ==> IsOtherNode(head[k])
      {
        if IsStyleSheetOrStyle(head[i]) {
          RemovingStyleKeepsOthers(head, i);
          head := head[..i] + head[i + 1..];
        } else {
          i := i + 1;
        }
      }
      FilterAll(IsOtherNode, head);
    }

    /** The second loop of `updateCSS`: a clone of each node is appended, in order. */
    method AppendClones(nodes: seq<Node>)
      modifies this`head
      ensures head == old(head) + nodes
    {
      for k := 0 to |nodes|
        invariant head == old(head) + nodes[..k]
      {
        head := head + [nodes[k]];
        assert nodes[..k + 1] == nodes[..k] + [nodes[k]];
      }
      assert nodes[..|nodes|] == nodes;
    }

    /**
      The development-mode `MutationObserver` callback: for each child-list
      mutation, append a clone of every added `style` element, in order. It
      acts only while connected (not built and not disposed).
    */
    method OnMainHeadMutations(mutations: seq<Mutation>)
      modifies this`head
      ensures head == old(head) + (if old(Observing()) then CopiedStyles(mutations) else [])
    {
      if !Observing() {
        return;
      }
      for m := 0 to |mutations|
        invariant head == old(head) + CopiedStyles(mutations[..m])
      {
        assert mutations[..m + 1][..m] == mutations[..m];
        var mutation := mutations[m];
        if mutation.ChildList? {
          AppendStyleElements(mutation.addedNodes);
        }
      }
      assert mutations[..|mutations|] == mutations;
    }

    /** One child-list mutation: a clone of each added `style` element is
        appended to the head, in order. */
    method AppendStyleElements(added: seq<Node>)
      modifies this`head
      ensures head == old(head) + Filter(IsStyleElement, added)
    {
      for a := 0 to |added|
        invariant head == old(head) + Filter(IsStyleElement, added[..a])
      {
        assert added[..a + 1][..a] == added[..a];
        if IsStyleElement(added[a]) {
          head := head + [added[a]];
        }
      }
      assert added[..|added|] == added;
    }

    /** `dispose`: the first call disposes the store (unregistering the window,
        closing it, disconnecting the observer); later calls do nothing. */
    method Dispose()
      modifies this`disposed, this`registered, this`log
      ensures old(disposed) ==> disposed == old(disposed) && registered == old(registered) && log == old(log)
      ensures !old(disposed) ==> disposed && !registered && log == old(log) + [NativeClose]
    {
      if !disposed {
        disposed := true;
        registered := false;
        log := log + [NativeClose];
      }
    }

    /** The lifecycle service's `onDidShutdown`, heard once while the store lives. */
    method OnShutdown()
      modifies this`disposed, this`registered, this`log
      ensures disposed && (!old(disposed) ==> !registered) && (old(disposed) ==> registered == old(registered))
      ensures log == old(log) + (if old(disposed) then [] else [NativeClose])
    {
      if !disposed {
        Dispose();
      }
    }

    /**
      `beforeunload`. With the handshake listeners gone nothing runs and the
      close proceeds. With `exitWindow` set, the listeners dispose themselves
      and the close proceeds. Otherwise the close is cancelled (default
      prevented, `returnValue` set to `''`) and exactly one unload message
      naming this window is posted.
    */
    method OnBeforeUnload() returns (prevented: bool, returnValue: Option<string>)
      modifies this`handshakeDisposed, this`log
      ensures old(handshakeDisposed) ==>
                !prevented && returnValue == None && handshakeDisposed && log == old(log)
      ensures !old(handshakeDisposed) && exitWindow ==>
                !prevented && returnValue == None && handshakeDisposed && log == old(log)
      ensures !old(handshakeDisposed) && !exitWindow ==>
                prevented && returnValue == Some("") && !handshakeDisposed &&
                log == old(log) + [Posted(UnloadMessage(id))]
    {
      prevented, returnValue := false, None;
      if handshakeDisposed {
        return;
      }
      if exitWindow {
        handshakeDisposed := true;
        return;
      }
      prevented, returnValue := true, Some("");
      log := log + [Posted(UnloadMessage(id))];
    }

    /**
      The `message` listener on the main window: the unload message for this
      window fires `onDidClose` and starts a 100 ms timer; any other message,
      or any message once the listeners are gone, is ignored.
    */
    method OnMessage(m: Message)
      modifies this`log, this`pendingTimers
      ensures !old(handshakeDisposed) && IsUnloadFor(m, id) ==>
                log == old(log) + [DidClose] && pendingTimers == old(pendingTimers) + 1
      ensures !(!old(handshakeDisposed) && IsUnloadFor(m, id)) ==>
                log == old(log) && pendingTimers == old(pendingTimers)
    {
      if !handshakeDisposed && m.msgType == Some(UnloadType) && m.content == Some(Decimal.NatToString(id)) {
        log := log + [DidClose];
        pendingTimers := pendingTimers + 1;
      }
    }

    /** A timer started by `OnMessage` runs: `exitWindow` is set and the
        window is closed. */
    method OnTimer()
      requires pendingTimers > 0
      modifies this`exitWindow, this`log, this`pendingTimers
      ensures exitWindow && pendingTimers == old(pendingTimers) - 1
      ensures log == old(log) + [NativeClose]
    {
      exitWindow := true;
      pendingTimers := pendingTimers - 1;
      log := log + [NativeClose];
    }

    /** The resize listener, while the store lives: the container is sized to
        the body's client area and `onDidResize` fires with that dimension. */
    method OnResize(bodyClientArea: Dimension)
      modifies this`containerSize, this`log
      ensures old(disposed) ==> containerSize == old(containerSize) && log == old(log)
      ensures !old(disposed) ==> containerSize == Some(bodyClientArea) &&
                                 log == old(log) + [DidResize(bodyClientArea)]
    {
      if !disposed {
        containerSize := Some(bodyClientArea);
        log := log + [DidResize(bodyClientArea)];
      }
    }

    /** `document.createElement` in the auxiliary document, as `blockMethods`
        left it: it throws whatever the tag, in every state of the window
        (live, exiting or disposed), and the window is left as it was. */
    method CreateElement(tag: string) returns (r: Result<Node, CreateError>)
      ensures r == Err(NotAllowedInChildWindow)
      ensures unchanged(this)
    {
      r := Err(NotAllowedInChildWindow);
    }

    /** The `unhandledrejection` listener, while the store lives: the reason goes
        to the unexpected-error handler and the browser's default is prevented. */
    method OnUnhandledRejection(reason: string) returns (prevented: bool)
      modifies this`log
      ensures prevented == !disposed
      ensures log == old(log) + (if disposed then [] else [UnexpectedError(reason)])
    {
      prevented := !disposed;
      if prevented {
        log := log + [UnexpectedError(reason)];
      }
    }
  }

  /**
    The whole cooperative close of a fresh window: the first `beforeunload`
    is cancelled and posts the window's unload message; delivering it fires
    `onDidClose`; the timer then sets `exitWindow` and closes the window; the
    `beforeunload` that close causes lets it proceed. `onDidClose` comes
    strictly before the native close.
  */
  method CloseHandshake(mainHead: seq<Node>) returns (first: bool, second: bool, outputs: seq<Output>)
    ensures first && !second
    ensures outputs == [Posted(UnloadMessage(0)), DidClose, NativeClose]
  {
    var counter := new IdCounter();
    var w := new AuxWindow(counter, mainHead, true, None, Custom, "#1e1e1e");
    var rv;
    first, rv := w.OnBeforeUnload();
    w.OnMessage(UnloadMessage(w.id));
    w.OnTimer();
    second, rv := w.OnBeforeUnload();
    outputs := w.log;
  }
}
