/**
  The webview editor pane (webviewEditor.ts). A webview is not part of the
  editor's DOM: it is an overlay that the pane claims while it shows it,
  releases when it stops, and positions over its own placeholder element.
  The overlay is kept abstract: an owner, the window it is shown in, the
  back-reference attribute to the placeholder, and the calls it received.
*/
module WebviewEditorPane {

  import opened Common

  /** A window: the main one, or the default view of some document. */
  datatype WindowRef = MainWindow | DocumentView(docId: nat)

  /** An element of a document, in document order, with the index of its parent element. */
  datatype DomElement = DomElement(id: string, parent: Option<nat>)

  /** A document: its identity, whether it has a default view, its elements. */
  datatype Document = Document(docId: nat, hasView: bool, elements: seq<DomElement>)

  /** An element, by its document and its index there. */
  datatype ElementRef = ElementRef(docId: nat, index: nat)

  datatype Dimension = Dimension(width: int, height: int)

  /** `ownerDocument.defaultView || window`. */
  function ViewOf(doc: Document): WindowRef {
    if doc.hasView then DocumentView(doc.docId) else MainWindow
  }

  /** `querySelector('[id = "…"]')`: the first element in document order with that id. */
  function FirstWithId(elements: seq<DomElement>, id: string): (r: Option<nat>)
    ensures r.Some? ==> r.value < |elements| && elements[r.value].id == id &&
                        forall k :: 0 <= k < r.value ==> elements[k].id != id
    ensures r.None? ==> forall k :: 0 <= k < |elements| ==> elements[k].id != id
  {
    if elements == [] then None
    else if elements[0].id == id then Some(0)
    else
      match FirstWithId(elements[1..], id)
      case Some(i) => Some(i + 1)
      case None => None
  }

  /** The id looked up: the container's `data-parent-flow-to-element-id`,
      printed as `null` when the attribute is missing and as `undefined`
      when there is no webview. */
  function FlowToText(hasWebview: bool, attribute: Option<string>): string {
    if !hasWebview then "undefined" else attribute.GetOr("null")
  }

  /**
    The root the overlay is laid out against. The layout service's root
    (`mainRoot`) is kept when there is none or when it lives in the
    element's own document. Otherwise the root is the parent of the first
    element of the element's document whose id is `flowTo`, or none.
  */
  function LayoutRoot(mainRoot: Option<ElementRef>, doc: Document, flowTo: string): (r: Option<ElementRef>)
    ensures mainRoot.None? || mainRoot.value.docId == doc.docId ==> r == mainRoot
    ensures mainRoot.Some? && mainRoot.value.docId != doc.docId ==>
              match FirstWithId(doc.elements, flowTo)
              case None => r == None
              case Some(i) => r == (if doc.elements[i].parent.Some? then Some(ElementRef(doc.docId, doc.elements[i].parent.value)) else None)
    ensures r.Some? && r != mainRoot ==> r.value.docId == doc.docId
  {
    if mainRoot.Some? && mainRoot.value.docId != doc.docId then
      match FirstWithId(doc.elements, flowTo)
      case Some(i) =>
        (match doc.elements[i].parent
         case Some(p) => Some(ElementRef(doc.docId, p))
         case None => None)
      case None => None
    else mainRoot
  }

  /** Element ids are unique in the document. */
  predicate UniqueIds(doc: Document) {
    forall i, j :: 0 <= i < j < |doc.elements| ==> doc.elements[i].id != doc.elements[j].id
  }

  /** With unique ids, a root in another document is replaced by the parent
      of the one element carrying the back-reference. */
  lemma CrossDocumentRootIsParentOfTarget(mainRoot: Option<ElementRef>, doc: Document, i: nat)
    requires UniqueIds(doc) && i < |doc.elements|
    requires mainRoot.Some? && mainRoot.value.docId != doc.docId
    ensures LayoutRoot(mainRoot, doc, doc.elements[i].id) ==
            (if doc.elements[i].parent.Some? then Some(ElementRef(doc.docId, doc.elements[i].parent.value)) else None)
  {
    var j := FirstWithId(doc.elements, doc.elements[i].id);
    assert j == Some(i);
  }

  /** Without a webview the id looked up is `undefined`; an element with that
      id, if any, decides the root. */
  lemma NoWebviewLooksUpUndefined(mainRoot: Option<ElementRef>, doc: Document)
    requires mainRoot.Some? && mainRoot.value.docId != doc.docId
    requires forall k :: 0 <= k < |doc.elements| ==> doc.elements[k].id != "undefined"
    ensures LayoutRoot(mainRoot, doc, FlowToText(false, None)) == None
  {
  }

  // ---------------------------------------------------------------------
  // The overlay webview
  // ---------------------------------------------------------------------

  /** What the pane asks of the overlay. */
  datatype OverlayCall =
    | Claimed(pane: nat)
    | Released(pane: nat)
    | LaidOut(root: Option<ElementRef>, dimension: Option<Dimension>)

  /** `IOverlayWebview`, reduced to what the pane reads and writes. */
  class OverlayWebview {
    /** `container.id`. */
    const containerId: string
    /** The pane that claimed it last and has not released it. */
    var owner: Option<nat>
    /** `window`: where the overlay is shown. */
    var window: WindowRef
    /** The container's `data-parent-flow-to-element-id`. */
    var parentFlowTo: Option<string>
    /** The claim, release and layout calls received, in order. */
    var calls: seq<OverlayCall>

    constructor (containerId: string)
      ensures this.containerId == containerId && owner == None && window == MainWindow
      ensures parentFlowTo == None && calls == []
    {
      this.containerId := containerId;
      owner := None;
      window := MainWindow;
      parentFlowTo := None;
      calls := [];
    }

    method Claim(pane: nat)
      modifies this`owner, this`calls
      ensures owner == Some(pane) && calls == old(calls) + [Claimed(pane)]
    {
      owner := Some(pane);
      calls := calls + [Claimed(pane)];
    }

    /** A release by a pane that does not own the overlay leaves the owner. */
    method Release(pane: nat)
      modifies this`owner, this`calls
      ensures owner == (if old(owner) == Some(pane) then None else old(owner))
      ensures calls == old(calls) + [Released(pane)]
    {
      if owner == Some(pane) {
        owner := None;
      }
      calls := calls + [Released(pane)];
    }

    /** `layoutWebviewOverElement`. */
    method LayoutOverElement(root: Option<ElementRef>, dimension: Option<Dimension>)
      modifies this`calls
      ensures calls == old(calls) + [LaidOut(root, dimension)]
    {
      calls := calls + [LaidOut(root, dimension)];
    }
  }

  // ---------------------------------------------------------------------
  // The pane
  // ---------------------------------------------------------------------

  /** An editor input; only a webview input carries an overlay. `matches`
      is identity of inputs. */
  datatype EditorInput = WebviewInput(key: nat, webview: OverlayWebview) | OtherInput(key: nat)

  /** What `_webviewVisibleDisposables` holds. */
  datatype VisibleDisposable = EditorDropTarget | WindowDragMonitor | FocusTracker

  const ElementIdPrefix: string := "webview-editor-element-"

  class WebviewEditor {
    /** Identity of this pane, as the overlay sees it. */
    const paneId: nat
    /** The document the pane's element belongs to once `createEditor` has
        appended it into the editor group's container. It stays fixed for
        the pane's whole life. */
    const document: Document
    /** `_element`, by its id; none after `dispose`. */
    var element: Option<string>
    /** `_dimension`. */
    var dimension: Option<Dimension>
    /** `_visible`. */
    var visible: bool
    /** `_isDisposed`. */
    var isDisposed: bool
    /** `input`. */
    var input: Option<EditorInput>
    /** `group?.id`. */
    var group: Option<nat>
    /** `_webviewVisibleDisposables`. */
    var visibleDisposables: seq<VisibleDisposable>
    /** The element's `aria-flowto`. */
    var ariaFlowTo: Option<string>
    /** `updateGroup` calls on inputs: the input's key and the group id. */
    var groupUpdates: seq<(nat, nat)>

    /** `webview`: the overlay of a webview input. */
    function Webview(): Option<OverlayWebview>
      reads this
    {
      if input.Some? && input.value.WebviewInput? then Some(input.value.webview) else None
    }

    function Overlays(): set<OverlayWebview>
      reads this
    {
      if Webview().Some? then {Webview().value} else {}
    }

    /** The id the geometry looks up, read from the current webview. */
    function CurrentFlowTo(): string
      reads this, Overlays()
    {
      if Webview().Some? then FlowToText(true, Webview().value.parentFlowTo) else FlowToText(false, None)
    }

    /** The pane after `createEditor`: its element has a generated id. */
    constructor (paneId: nat, document: Document, uuid: string, group: Option<nat>)
      ensures this.paneId == paneId && this.document == document && this.group == group
      ensures element == Some(ElementIdPrefix + uuid) && dimension == None && !visible && !isDisposed
      ensures input == None && visibleDisposables == [] && ariaFlowTo == None && groupUpdates == []
    {
      this.paneId := paneId;
      this.document := document;
      this.group := group;
      element := Some(ElementIdPrefix + uuid);
      dimension := None;
      visible := false;
      isDisposed := false;
      input := None;
      visibleDisposables := [];
      ariaFlowTo := None;
      groupUpdates := [];
    }

    /** The layout service's root lives in another document than the pane's
        element: `synchronizeWebviewContainerDimensions` then moves the
        current webview to this document's window. */
    predicate CrossDocument(mainRoot: Option<ElementRef>)
      reads this
    {
      element.Some? && mainRoot.Some? && mainRoot.value.docId != document.docId
    }

    /** The layout one `synchronizeWebviewContainerDimensions` with `dim`
        sends: none without an element, else one against `LayoutRoot`. */
    function SyncCalls(mainRoot: Option<ElementRef>, dim: Option<Dimension>): seq<OverlayCall>
      reads this, Overlays()
    {
      if element.Some? then [LaidOut(LayoutRoot(mainRoot, document, CurrentFlowTo()), dim)] else []
    }

    /** What the closing `layout(this._dimension)` of `setInput` sends to the
        current webview: a layout only when a dimension is stored and the
        pane is visible. */
    function RelayoutCalls(mainRoot: Option<ElementRef>): seq<OverlayCall>
      reads this, Overlays()
    {
      if dimension.Some? && visible then SyncCalls(mainRoot, dimension) else []
    }

    /** The overlay a webview input carries, as a set (empty for another input). */
    function Carried(inp: EditorInput): set<OverlayWebview> {
      if inp.WebviewInput? then {inp.webview} else {}
    }

    /**
      `synchronizeWebviewContainerDimensions`: nothing without an element.
      When the layout service's root lives in another document, the current
      webview is moved to this document's window and the root is looked up
      through the back-reference; `w` is then laid out against the root.
    */
    method SynchronizeDimensions(w: OverlayWebview, dim: Option<Dimension>, mainRoot: Option<ElementRef>)
      modifies w`calls, Overlays()
      ensures element.None? ==> w.calls == old(w.calls)
      ensures element.Some? ==> w.calls == old(w.calls) + [LaidOut(LayoutRoot(mainRoot, document, old(CurrentFlowTo())), dim)]
      ensures forall o :: o in Overlays() ==> o.parentFlowTo == old(o.parentFlowTo) && o.owner == old(o.owner)
      ensures forall o :: o in Overlays() && o != w ==> o.calls == old(o.calls)
      ensures forall o :: o in Overlays() ==>
                o.window == (if CrossDocument(mainRoot) then ViewOf(document) else old(o.window))
      ensures w !in Overlays() ==> w.window == old(w.window)
    {
      if element.None? {
        return;
      }
      var root := mainRoot;
      var flowTo := CurrentFlowTo();
      if mainRoot.Some? && mainRoot.value.docId != document.docId {
        if Webview().Some? {
          Webview().value.window := ViewOf(document);
        }
        root := LayoutRoot(mainRoot, document, flowTo);
      }
      w.LayoutOverElement(root, dim);
    }

    /**
      `claimWebview`: the overlay moves to this pane's window (the main one
      without an element), is claimed by this pane, gets the flow-to
      links, and the visible disposables are replaced by a drop target, a
      drag monitor and a focus tracker, with one layout in between. That
      layout reads the back-reference of the pane's current webview and,
      across documents, moves that webview to this window too.
    */
    method ClaimWebview(inp: EditorInput, mainRoot: Option<ElementRef>)
      requires inp.WebviewInput?
      modifies this`ariaFlowTo, this`visibleDisposables, inp.webview, Overlays()
      ensures inp.webview.owner == Some(paneId)
      ensures inp.webview.window == (if element.Some? then ViewOf(document) else MainWindow)
      ensures element.Some? ==> ariaFlowTo == Some(inp.webview.containerId) && inp.webview.parentFlowTo == element
      ensures element.None? ==> ariaFlowTo == old(ariaFlowTo) && inp.webview.parentFlowTo == old(inp.webview.parentFlowTo)
      ensures inp.webview.calls == old(inp.webview.calls) + [Claimed(paneId)] + SyncCalls(mainRoot, None)
      ensures visibleDisposables == [EditorDropTarget, WindowDragMonitor, FocusTracker]
      ensures forall o :: o in Overlays() && o != inp.webview ==>
                o.calls == old(o.calls) && o.owner == old(o.owner) && o.parentFlowTo == old(o.parentFlowTo) &&
                o.window == (if CrossDocument(mainRoot) then ViewOf(document) else old(o.window))
    {
      var w := inp.webview;
      w.window := if element.Some? then ViewOf(document) else MainWindow;
      w.Claim(paneId);
      if element.Some? {
        ariaFlowTo := Some(w.containerId);
        w.parentFlowTo := element;
      }
      visibleDisposables := [EditorDropTarget, WindowDragMonitor];
      ghost var flowTo := CurrentFlowTo();
      SynchronizeDimensions(w, None, mainRoot);
      assert CurrentFlowTo() == flowTo;
      visibleDisposables := visibleDisposables + [FocusTracker];
    }

    /** `setEditorVisible`: records `visible`; with a webview input, showing
        claims the overlay and hiding releases it. */
    method SetEditorVisible(v: bool, mainRoot: Option<ElementRef>)
      modifies this`visible, this`ariaFlowTo, this`visibleDisposables, Overlays()
      ensures visible == v && input == old(input)
      ensures Webview().Some? && v ==>
                Webview().value.owner == Some(paneId) &&
                Webview().value.calls ==
                  old(Webview().value.calls) + [Claimed(paneId)] +
                  (if element.Some? then [LaidOut(LayoutRoot(mainRoot, document, CurrentFlowTo()), None)] else []) &&
                Webview().value.window == (if element.Some? then ViewOf(document) else MainWindow) &&
                (element.Some? ==> ariaFlowTo == Some(Webview().value.containerId) && Webview().value.parentFlowTo == element) &&
                (element.None? ==> ariaFlowTo == old(ariaFlowTo) && Webview().value.parentFlowTo == old(Webview().value.parentFlowTo)) &&
                visibleDisposables == [EditorDropTarget, WindowDragMonitor, FocusTracker]
      ensures Webview().Some? && !v ==>
                Webview().value.calls == old(Webview().value.calls) + [Released(paneId)] &&
                Webview().value.owner == (if old(Webview().value.owner) == Some(paneId) then None else old(Webview().value.owner)) &&
                Webview().value.window == old(Webview().value.window) &&
                Webview().value.parentFlowTo == old(Webview().value.parentFlowTo) &&
                visibleDisposables == old(visibleDisposables) && ariaFlowTo == old(ariaFlowTo)
      ensures Webview().None? ==> visibleDisposables == old(visibleDisposables) && ariaFlowTo == old(ariaFlowTo)
    {
      visible := v;
      if input.Some? && input.value.WebviewInput? {
        if v {
          ClaimWebview(input.value, mainRoot);
        } else {
          input.value.webview.Release(paneId);
        }
      }
    }

    /** `clearInput`: a webview is released and the visible disposables
        emptied; then the pane has no input. */
    method ClearInput()
      modifies this`input, this`visibleDisposables, Overlays()
      ensures input == None
      ensures forall o :: o in old(Overlays()) ==>
                o.calls == old(o.calls) + [Released(paneId)] &&
                o.owner == (if old(o.owner) == Some(paneId) then None else old(o.owner)) &&
                o.window == old(o.window) && o.parentFlowTo == old(o.parentFlowTo)
      ensures old(Webview()).Some? ==> visibleDisposables == []
      ensures old(Webview()).None? ==> visibleDisposables == old(visibleDisposables)
    {
      if Webview().Some? {
        Webview().value.Release(paneId);
        visibleDisposables := [];
      }
      input := None;
    }

    /** `dispose`: the pane is marked disposed and drops its element. */
    method Dispose()
      modifies this`isDisposed, this`element, this`visibleDisposables
      ensures isDisposed && element == None && visibleDisposables == []
    {
      isDisposed := true;
      element := None;
      visibleDisposables := [];
    }

    /** `layout`: the dimension is always stored; the overlay is laid out
        only when there is a webview and the pane is visible. */
    method Layout(d: Dimension, mainRoot: Option<ElementRef>)
      modifies this`dimension, Overlays()
      ensures dimension == Some(d)
      ensures !(Webview().Some? && visible && element.Some?) ==> forall o :: o in Overlays() ==> o.calls == old(o.calls)
      ensures Webview().Some? && visible && element.Some? ==>
                Webview().value.calls == old(Webview().value.calls) + [LaidOut(LayoutRoot(mainRoot, document, CurrentFlowTo()), Some(d))]
      ensures forall o :: o in Overlays() ==> o.owner == old(o.owner) && o.parentFlowTo == old(o.parentFlowTo)
      ensures forall o :: o in Overlays() ==>
                o.window == (if visible && CrossDocument(mainRoot) then ViewOf(document) else old(o.window))
    {
      dimension := Some(d);
      if Webview().Some? && visible {
        SynchronizeDimensions(Webview().value, Some(d), mainRoot);
      }
    }

    /** A scroll, or a group added, removed or moved: same guard as `layout`,
        without a dimension. */
    method OnGroupEvent(mainRoot: Option<ElementRef>)
      modifies Overlays()
      ensures !(Webview().Some? && visible && element.Some?) ==> forall o :: o in Overlays() ==> o.calls == old(o.calls)
      ensures Webview().Some? && visible && element.Some? ==>
                Webview().value.calls == old(Webview().value.calls) + [LaidOut(LayoutRoot(mainRoot, document, CurrentFlowTo()), None)]
      ensures forall o :: o in Overlays() ==> o.owner == old(o.owner) && o.parentFlowTo == old(o.parentFlowTo)
      ensures forall o :: o in Overlays() ==>
                o.window == (if visible && CrossDocument(mainRoot) then ViewOf(document) else old(o.window))
    {
      if Webview().Some? && visible {
        SynchronizeDimensions(Webview().value, None, mainRoot);
      }
    }

    /**
      `setInput`, up to its first `await`. An input identical to the current
      one stops here with nothing changed. Otherwise the current webview is
      released unless the new input carries that same overlay, and the new
      input is set. `proceed` says whether the rest runs; `alreadyOwns` is
      carried to it.
    */
    method BeginSetInput(newInput: EditorInput) returns (proceed: bool, alreadyOwns: bool)
      modifies this`input, Overlays()
      ensures proceed <==> !(old(input) == Some(newInput))
      ensures !proceed ==> input == old(input) && unchanged(old(Overlays()))
      ensures proceed ==> input == Some(newInput)
      ensures proceed ==> alreadyOwns == (newInput.WebviewInput? && old(Webview()) == Some(newInput.webview))
      ensures proceed && !alreadyOwns ==>
                forall o :: o in old(Overlays()) ==>
                  o.calls == old(o.calls) + [Released(paneId)] &&
                  o.owner == (if old(o.owner) == Some(paneId) then None else old(o.owner)) &&
                  o.window == old(o.window) && o.parentFlowTo == old(o.parentFlowTo)
      ensures proceed && alreadyOwns ==> unchanged(old(Overlays()))
    {
      if input.Some? && newInput == input.value {
        return false, false;
      }
      alreadyOwns := newInput.WebviewInput? && Webview() == Some(newInput.webview);
      if Webview().Some? && !alreadyOwns {
        Webview().value.Release(paneId);
      }
      input := Some(newInput);
      proceed := true;
    }

    /**
      The rest of `setInput`, once the input has resolved. `newInput` is the
      input this call started with; another `setInput` or `clearInput` may
      have run during the await, so it need not be the pane's input any
      more. Nothing happens when the request was cancelled or the pane
      disposed meanwhile. For a webview input the group is passed on, that
      input's overlay is claimed unless the pane already owned it, and a
      stored dimension lays out the pane's current webview again.
    */
    method ResumeSetInput(newInput: EditorInput, alreadyOwns: bool, cancelled: bool, mainRoot: Option<ElementRef>)
      modifies this`groupUpdates, this`ariaFlowTo, this`visibleDisposables, this`dimension
      modifies Carried(newInput), Overlays()
      ensures dimension == old(dimension)
      ensures cancelled || isDisposed || newInput.OtherInput? ==>
                groupUpdates == old(groupUpdates) && ariaFlowTo == old(ariaFlowTo) &&
                visibleDisposables == old(visibleDisposables) &&
                unchanged(Carried(newInput)) && unchanged(Overlays())
      ensures !cancelled && !isDisposed && newInput.WebviewInput? ==>
                groupUpdates == old(groupUpdates) + (if group.Some? then [(newInput.key, group.value)] else [])
      ensures !cancelled && !isDisposed && newInput.WebviewInput? && !alreadyOwns ==>
                newInput.webview.owner == Some(paneId) &&
                newInput.webview.calls ==
                  old(newInput.webview.calls) + [Claimed(paneId)] + SyncCalls(mainRoot, None) +
                  (if Webview() == Some(newInput.webview) then RelayoutCalls(mainRoot) else []) &&
                newInput.webview.window == (if element.Some? then ViewOf(document) else MainWindow) &&
                (element.Some? ==> ariaFlowTo == Some(newInput.webview.containerId) && newInput.webview.parentFlowTo == element) &&
                (element.None? ==> ariaFlowTo == old(ariaFlowTo) && newInput.webview.parentFlowTo == old(newInput.webview.parentFlowTo)) &&
                visibleDisposables == [EditorDropTarget, WindowDragMonitor, FocusTracker]
      ensures !cancelled && !isDisposed && newInput.WebviewInput? && alreadyOwns ==>
                newInput.webview.owner == old(newInput.webview.owner) &&
                newInput.webview.calls ==
                  old(newInput.webview.calls) + (if Webview() == Some(newInput.webview) then RelayoutCalls(mainRoot) else []) &&
                newInput.webview.parentFlowTo == old(newInput.webview.parentFlowTo) &&
                newInput.webview.window ==
                  (if Webview() == Some(newInput.webview) && dimension.Some? && visible && CrossDocument(mainRoot)
                   then ViewOf(document) else old(newInput.webview.window)) &&
                visibleDisposables == old(visibleDisposables) && ariaFlowTo == old(ariaFlowTo)
      ensures !cancelled && !isDisposed && newInput.WebviewInput? ==>
                forall o :: o in Overlays() && o != newInput.webview ==>
                  o.owner == old(o.owner) && o.parentFlowTo == old(o.parentFlowTo) &&
                  o.calls == old(o.calls) + RelayoutCalls(mainRoot) &&
                  o.window == (if CrossDocument(mainRoot) && (!alreadyOwns || (dimension.Some? && visible))
                               then ViewOf(document) else old(o.window))
    {
      if cancelled || isDisposed {
        return;
      }
      if newInput.WebviewInput? {
        ResumeWebview(newInput, alreadyOwns, mainRoot);
      }
    }

    /**
      The webview part of the rest of `setInput`. The captured input's
      overlay is claimed even when the pane shows another input by now; the
      closing layout goes to the pane's current webview.
    */
    method ResumeWebview(newInput: EditorInput, alreadyOwns: bool, mainRoot: Option<ElementRef>)
      requires newInput.WebviewInput?
      modifies this`groupUpdates, this`ariaFlowTo, this`visibleDisposables, this`dimension, newInput.webview, Overlays()
      ensures dimension == old(dimension)
      ensures groupUpdates == old(groupUpdates) + (if group.Some? then [(newInput.key, group.value)] else [])
      ensures !alreadyOwns ==>
                newInput.webview.owner == Some(paneId) &&
                newInput.webview.calls ==
                  old(newInput.webview.calls) + [Claimed(paneId)] + SyncCalls(mainRoot, None) +
                  (if Webview() == Some(newInput.webview) then RelayoutCalls(mainRoot) else []) &&
                newInput.webview.window == (if element.Some? then ViewOf(document) else MainWindow) &&
                (element.Some? ==> ariaFlowTo == Some(newInput.webview.containerId) && newInput.webview.parentFlowTo == element) &&
                (element.None? ==> ariaFlowTo == old(ariaFlowTo) && newInput.webview.parentFlowTo == old(newInput.webview.parentFlowTo)) &&
                visibleDisposables == [EditorDropTarget, WindowDragMonitor, FocusTracker]
      ensures alreadyOwns ==>
                newInput.webview.owner == old(newInput.webview.owner) &&
                newInput.webview.calls ==
                  old(newInput.webview.calls) + (if Webview() == Some(newInput.webview) then RelayoutCalls(mainRoot) else []) &&
                newInput.webview.parentFlowTo == old(newInput.webview.parentFlowTo) &&
                newInput.webview.window ==
                  (if Webview() == Some(newInput.webview) && dimension.Some? && visible && CrossDocument(mainRoot)
                   then ViewOf(document) else old(newInput.webview.window)) &&
                visibleDisposables == old(visibleDisposables) && ariaFlowTo == old(ariaFlowTo)
      ensures forall o :: o in Overlays() && o != newInput.webview ==>
                o.owner == old(o.owner) && o.parentFlowTo == old(o.parentFlowTo) &&
                o.calls == old(o.calls) + RelayoutCalls(mainRoot) &&
                o.window == (if CrossDocument(mainRoot) && (!alreadyOwns || (dimension.Some? && visible))
                             then ViewOf(document) else old(o.window))
    {
      if group.Some? {
        groupUpdates := groupUpdates + [(newInput.key, group.value)];
      }
      if !alreadyOwns {
        ClaimWebview(newInput, mainRoot);
      }
      Relayout(mainRoot);
    }

    /** `layout(this._dimension)` when a dimension is stored: the current
        webview gets the layout calls `RelayoutCalls` says, and nothing else
        about it changes but its window. */
    method Relayout(mainRoot: Option<ElementRef>)
      modifies this`dimension, Overlays()
      ensures dimension == old(dimension)
      ensures forall o :: o in Overlays() ==>
                o.owner == old(o.owner) && o.parentFlowTo == old(o.parentFlowTo) &&
                o.calls == old(o.calls) + RelayoutCalls(mainRoot) &&
                o.window == (if dimension.Some? && visible && CrossDocument(mainRoot) then ViewOf(document) else old(o.window))
    {
      if dimension.Some? {
        Layout(dimension.value, mainRoot);
      }
    }
  }

  /**
    A resume that outlives its input: the pane shows input A, then input B
    (whose overlay is another), and only then does A's `setInput` resume,
    uncancelled. A's overlay is claimed by the pane although the pane now
    shows B, whose overlay stays unclaimed.
  */
  method StaleResumeClaims() returns (staleOwner: Option<nat>, shownKey: Option<nat>, shownOwner: Option<nat>)
    ensures staleOwner == Some(7) && shownKey == Some(2) && shownOwner == None
  {
    var a := new OverlayWebview("a");
    var b := new OverlayWebview("b");
    var pane := new WebviewEditor(7, Document(0, false, []), "u", None);
    var inputA, inputB := WebviewInput(1, a), WebviewInput(2, b);
    var _, ownsA := pane.BeginSetInput(inputA);
    var _, _ := pane.BeginSetInput(inputB);
    pane.ResumeSetInput(inputA, ownsA, false, None);
    staleOwner, shownOwner := a.owner, b.owner;
    shownKey := if pane.input.Some? then Some(pane.input.value.key) else None;
  }

  /**
    Showing an input claims its overlay for the pane; clearing the input
    gives the claim up again and leaves the overlay where it was shown.
  */
  method ClearInputGivesUpClaim() returns (owner: Option<nat>, window: WindowRef, flowTo: Option<string>)
    ensures owner == None && window == ViewOf(Document(0, false, [])) && flowTo == Some(ElementIdPrefix + "u")
  {
    var a := new OverlayWebview("a");
    var pane := new WebviewEditor(7, Document(0, false, []), "u", None);
    var inputA := WebviewInput(1, a);
    var _, ownsA := pane.BeginSetInput(inputA);
    pane.ResumeSetInput(inputA, ownsA, false, None);
    pane.ClearInput();
    owner, window, flowTo := a.owner, a.window, a.parentFlowTo;
  }
}
