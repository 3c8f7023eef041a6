/**
 * The modal registry: one layer per top-level window, each holding its
 * id-to-container map and its layered pane, and the process-wide manager
 * over them.
 *
 * Two behaviours of the code are kept as outcomes rather than proved
 * away. With animation disabled, closing a container calls back into the
 * registry before anything is removed, so the same close is asked for
 * again on an unchanged registry (Reentered). With animation enabled, a
 * close through the registry removes the id at once, and the animation's
 * end then asks the registry to close an id it no longer holds (Threw).
 */
module ModalRegistry {
  import opened Wrappers
  import opened ModalOptions
  import opened JavaText
  import opened ModalComponents

  datatype ComponentKind = Frame | Dialog | Plain

  /** An AWT component: an identity, whether it is a JFrame or JDialog, and its parent. */
  datatype Component = Component(ident: nat, kind: ComponentKind, parent: Option<Component>)

  predicate IsWindow(c: Component)
  {
    c.kind == Frame || c.kind == Dialog
  }

  /** A component followed by its parents, outwards. */
  function Ancestry(c: Option<Component>): seq<Component>
    decreases c
  {
    match c
    case None => []
    case Some(comp) => [comp] + Ancestry(comp.parent)
  }

  const NullOwnerMessage: string := "El componente padre no puede ser null"

  /** getRootPaneContainer: walk up the parents to the first frame or dialog. */
  function RootPaneContainer(c: Option<Component>): (r: Result<Component, string>)
    ensures r.Success? ==> IsWindow(r.value)
    ensures r.Failure? ==> r.error == NullOwnerMessage
    decreases c
  {
    match c
    case None => Failure(NullOwnerMessage)
    case Some(comp) => if IsWindow(comp) then Success(comp) else RootPaneContainer(comp.parent)
  }

  /** The root is the nearest window on the chain, the component itself included; with no window the walk fails at null. */
  lemma {:induction false} RootIsNearestWindow(c: Option<Component>)
    ensures RootPaneContainer(c).Success? ==>
      exists i :: 0 <= i < |Ancestry(c)| && Ancestry(c)[i] == RootPaneContainer(c).value &&
        IsWindow(Ancestry(c)[i]) && forall j :: 0 <= j < i ==> !IsWindow(Ancestry(c)[j])
    ensures RootPaneContainer(c).Failure? ==>
      RootPaneContainer(c).error == NullOwnerMessage &&
      forall j :: 0 <= j < |Ancestry(c)| ==> !IsWindow(Ancestry(c)[j])
    decreases c
  {
    match c
    case None =>
    case Some(comp) =>
      var chain := Ancestry(c);
      assert chain[0] == comp;
      if !IsWindow(comp) {
        RootIsNearestWindow(comp.parent);
        var rest := Ancestry(comp.parent);
        assert chain[1..] == rest;
        if RootPaneContainer(comp.parent).Success? {
          var i :| 0 <= i < |rest| && rest[i] == RootPaneContainer(comp.parent).value &&
            IsWindow(rest[i]) && forall j :: 0 <= j < i ==> !IsWindow(rest[j]);
          assert chain[i + 1] == rest[i];
          assert forall j :: 0 <= j < i + 1 ==> !IsWindow(chain[j]) by {
            forall j | 0 <= j < i + 1
              ensures !IsWindow(chain[j])
            {
              if j > 0 { assert chain[j] == rest[j - 1]; }
            }
          }
        } else {
          forall j | 0 <= j < |chain|
            ensures !IsWindow(chain[j])
          {
            if j > 0 { assert chain[j] == rest[j - 1]; }
          }
        }
      }
  }

  datatype EngineError = IllegalArgument(message: string) | NullPointer

  /** How a close request ends. */
  datatype CloseOutcome =
    | Done
      /** The close called ModalManager.closeModal(id) again before removing anything. */
    | Reentered(id: ModalId)
    | Threw(error: EngineError)

  /** String concatenation of a possibly null id. */
  function IdText(id: ModalId): string
  {
    match id
    case None => "null"
    case Some(s) => s
  }

  /** showModal's refusal of a held id: the message quotes the id. */
  function DuplicateIdMessage(id: ModalId): (m: string)
    ensures OccursAt(m, "'" + IdText(id) + "'", 6)
  {
    "El ID '" + IdText(id) + "' ya existe"
  }

  /** getModalContainerById's failure: the message quotes the id, and differs from the duplicate-id message. */
  function NotFoundMessage(id: ModalId): (m: string)
    ensures OccursAt(m, "'" + IdText(id) + "'", 3)
    ensures m != DuplicateIdMessage(id)
  {
    "ID '" + IdText(id) + "' no encontrado"
  }

  /** The layered pane's children, topmost first, less one container. */
  function Without(pane: seq<ModalContainer>, c: ModalContainer): (r: seq<ModalContainer>)
    ensures forall i :: 0 <= i < |r| ==> r[i] in pane && r[i] != c
    ensures forall i :: 0 <= i < |pane| && pane[i] != c ==> pane[i] in r
    ensures |r| <= |pane|
  {
    if pane == [] then []
    else (if pane[0] == c then [] else [pane[0]]) + Without(pane[1..], c)
  }

  /** Taking out a container that sits once in the pane leaves the others in their stacking order. */
  lemma {:induction false} WithoutSingle(pane: seq<ModalContainer>, c: ModalContainer, k: int)
    requires 0 <= k < |pane| && pane[k] == c
    requires forall i :: 0 <= i < |pane| && i != k ==> pane[i] != c
    ensures Without(pane, c) == pane[..k] + pane[k + 1..]
  {
    if k == 0 {
      WithoutAbsent(pane[1..], c);
      assert pane[1..] == pane[k + 1..];
    } else {
      WithoutSingle(pane[1..], c, k - 1);
      WithoutPastHead(pane, c, k);
    }
  }

  /** A container found further down the pane than the head: its removal from the tail extends to the pane. */
  lemma WithoutPastHead(pane: seq<ModalContainer>, c: ModalContainer, k: int)
    requires 0 < k < |pane| && pane[0] != c
    requires Without(pane[1..], c) == pane[1..][..k - 1] + pane[1..][k..]
    ensures Without(pane, c) == pane[..k] + pane[k + 1..]
  {
    assert pane[1..][..k - 1] == pane[1..k];
    assert pane[1..][k..] == pane[k + 1..];
    assert [pane[0]] + pane[1..k] == pane[..k];
  }

  lemma {:induction false} WithoutAbsent(pane: seq<ModalContainer>, c: ModalContainer)
    requires forall i :: 0 <= i < |pane| ==> pane[i] != c
    ensures Without(pane, c) == pane
  {
    if pane != [] {
      WithoutAbsent(pane[1..], c);
    }
  }

  /** ModalContainerLayer: the modals of one window. */
  class ModalContainerLayer {
    const window: Component
    var containers: map<ModalId, ModalContainer>
    /** The children of the layered pane, topmost first. */
    var pane: seq<ModalContainer>
    var visible: bool

    ghost predicate Valid()
      reads this
    {
      (forall k :: k in containers ==> containers[k].id == k && containers[k] in pane) &&
      (containers != map[] ==> visible)
    }

    /** A new JLayeredPane is visible and empty. */
    constructor (window: Component)
      ensures this.window == window && containers == map[] && pane == [] && visible
      ensures Valid()
    {
      this.window := window;
      containers, pane, visible := map[], [], true;
    }

    /** The state closeAllModal leaves: no containers, an empty pane, hidden. */
    predicate Emptied()
      reads this
    {
      containers == map[] && pane == [] && !visible
    }

    /** checkId(id): whether the id is held; in a valid layer, a held id names a container with that id on the pane. */
    predicate CheckId(id: ModalId): (held: bool)
      reads this
      ensures held && Valid() ==> id in containers && containers[id].id == id && containers[id] in pane
    {
      id in containers
    }

    /**
     * addModal: a new container goes on top of the pane, takes the content,
     * is registered under the id (replacing any container already there)
     * and is shown; the layer becomes visible.
     */
    method AddModal(modal: ModalContent, option: ModalOption, id: ModalId) returns (c: ModalContainer)
      requires Valid()
      modifies this, modal
      ensures Valid() && fresh(c) && fresh(c.panel)
      ensures containers == old(containers)[id := c] && pane == [c] + old(pane) && visible
      ensures c.id == id && c.option == option && c.panel.content == modal && c.showing
      ensures modal.controller == c && modal.id == id && modal.installed
      ensures modal.installCount == old(modal.installCount) + (if old(modal.installed) then 0 else 1)
      ensures option.animationEnabled ==>
        c.animate == 0.0 && c.hasAnimator &&
        c.animatorRunning && c.animatorStarts == 1 && c.animatorDuration == option.duration &&
        c.escapeBound == option.closeOnEscape &&
        c.clickListeners == (if option.closeOnClickOutside then 1 else 0) &&
        modal.openedScheduled == old(modal.openedScheduled)
      ensures !option.animationEnabled ==>
        !c.hasAnimator && !c.animatorRunning && c.animate == 1.0 && !c.escapeBound && c.clickListeners == 0 &&
        modal.openedScheduled == old(modal.openedScheduled) + 1
    {
      c := new ModalContainer(option, id);
      pane := [c] + pane;
      c.InitModal(modal);
      modal.id := id;
      containers := containers[id := c];
      c.ShowModal();
      visible := true;
    }

    /** The container registered under id before a close, if any. */
    function Held(id: ModalId): ModalContainer?
      reads this
    {
      if id in containers then containers[id] else null
    }

    /** What closeModal(id) did, given the state before it; c is the container the id named. */
    twostate predicate ClosedAs(id: ModalId, c: ModalContainer?, o: CloseOutcome)
      reads this, c
    {
      if id !in old(containers) then
        o == Done && containers == old(containers) && pane == old(pane) && visible == old(visible)
      else
        c == old(containers[id]) && c.hasAnimator == old(c.hasAnimator) && (old(c.Valid()) ==> c.Valid()) &&
        if old(c.showing) && !old(c.option.animationEnabled) then
          // removeModal ran and called the registry again; nothing was removed yet
          o == Reentered(id) && containers == old(containers) && pane == old(pane) &&
          visible == old(visible) && c.showing && c.escapeAction == old(c.escapeAction) &&
          c.escapeBound == (old(c.escapeBound) && !c.escapeAction)
        else if old(c.showing) && !old(c.hasAnimator) then
          o == Threw(NullPointer) && containers == old(containers) && pane == old(pane) &&
          visible == old(visible) && !c.showing
        else
          // the container was not showing, or its closing animation was started
          o == Done && containers == old(containers) - {id} && pane == Without(old(pane), c) &&
          visible == (containers != map[]) && !c.showing &&
          (old(c.showing) ==> c.hasAnimator && c.animatorRunning)
    }

    /**
     * closeModal: an unknown id is ignored. For a known id the container is
     * closed, then taken off the pane and out of the map; the layer hides
     * when the map becomes empty.
     */
    method CloseModal(id: ModalId) returns (o: CloseOutcome)
      requires Valid()
      modifies this, containers.Values
      ensures Valid() && ClosedAs(id, old(Held(id)), o)
      ensures forall c :: c in old(containers.Values) && (id !in old(containers) || c != old(containers[id])) ==> unchanged(c)
    {
      if id !in containers {
        return Done;
      }
      var c := containers[id];
      var e := c.CloseModal();
      match e {
        case CloseThroughManager(i) =>
          return Reentered(i);
        case NullAnimator =>
          return Threw(NullPointer);
        case NoEffect =>
      }
      pane := Without(pane, c);
      containers := containers - {id};
      if containers == map[] {
        visible := false;
      }
      o := Done;
    }

    /**
     * closeModal with the container's close corrected to stop showing
     * before removeModal. The registry's nested closeModal(id) then reaches
     * this layer again (the id's only holder) and finds the container
     * closed, so it removes it and returns; the outer close's own removal
     * finds nothing left to remove. No close is left unfinished.
     */
    method CloseModalHidingFirst(id: ModalId) returns (o: CloseOutcome)
      requires Valid()
      modifies this, containers.Values
      ensures Valid()
      ensures id !in old(containers) ==>
        o == Done && containers == old(containers) && pane == old(pane) && visible == old(visible)
      ensures id in old(containers) && old(containers[id].showing && containers[id].option.animationEnabled && !containers[id].hasAnimator) ==>
        o == Threw(NullPointer) && containers == old(containers) && pane == old(pane) && visible == old(visible)
      ensures id in old(containers) && !old(containers[id].showing && containers[id].option.animationEnabled && !containers[id].hasAnimator) ==>
        o == Done && containers == old(containers) - {id} && pane == Without(old(pane), old(containers[id])) &&
        visible == (containers != map[]) && !old(containers[id]).showing
      ensures forall c :: c in old(containers.Values) && (id !in old(containers) || c != old(containers[id])) ==> unchanged(c)
    {
      if id !in containers {
        return Done;
      }
      var c := containers[id];
      var e := c.CloseModalHidingFirst();
      if e == NullAnimator {
        return Threw(NullPointer);
      }
      if e.CloseThroughManager? {
        // the nested close through the registry
        var inner := c.CloseModalHidingFirst();
        assert inner == NoEffect;
        RemoveEntry(id, c);
        WithoutAbsent(pane, c);
      }
      RemoveEntry(id, c);
      o := Done;
    }

    /** Take c off the pane and id out of the map; hide the layer when the map becomes empty. */
    method RemoveEntry(id: ModalId, c: ModalContainer)
      requires Valid() && c.id == id
      modifies this
      ensures Valid()
      ensures containers == old(containers) - {id} && pane == Without(old(pane), c)
      ensures visible == (if containers == map[] then false else old(visible))
    {
      pane := Without(pane, c);
      containers := containers - {id};
      if containers == map[] {
        visible := false;
      }
    }

    /**
     * closeAllModal: every container is closed, in the map's unspecified
     * order; then the pane and the map are emptied and the layer hidden.
     * A container whose close calls back into the registry or fails stops
     * the walk before anything is removed.
     */
    method CloseAllModal() returns (o: CloseOutcome)
      requires Valid()
      modifies this, containers.Values
      ensures Valid()
      ensures o == Done ==> Emptied()
      ensures o == Done ==> forall c :: c in old(containers.Values) ==> c.ClosedAfter(old(c.Valid()), old(c.showing))
      ensures forall c :: c in old(containers.Values) && !old(c.showing) ==> unchanged(c)
      ensures o != Done ==> containers == old(containers) && pane == old(pane) && visible == old(visible)
      ensures o.Reentered? ==> o.id in containers && containers[o.id].showing && !containers[o.id].option.animationEnabled
      ensures o.Reentered? ==> exists c :: c in old(containers.Values) && old(c.showing) && !c.option.animationEnabled
      ensures o.Threw? ==> o.error == NullPointer
      ensures o.Threw? ==>
        exists c :: c in old(containers.Values) && old(c.showing) && c.option.animationEnabled && !old(c.hasAnimator)
    {
      var todo := containers.Values;
      while todo != {}
        invariant todo <= old(containers.Values)
        invariant containers == old(containers) && pane == old(pane) && visible == old(visible)
        invariant Valid()
        invariant forall c :: c in old(containers.Values) - todo ==> c.ClosedAfter(old(c.Valid()), old(c.showing))
        invariant forall c :: c in old(containers.Values) - todo && !old(c.showing) ==> unchanged(c)
        invariant forall c :: c in todo ==> unchanged(c)
        decreases |todo|
      {
        var c :| c in todo;
        var e := c.CloseModal();
        match e {
          case CloseThroughManager(i) =>
            assert containers[c.id] == c;
            return Reentered(i);
          case NullAnimator =>
            return Threw(NullPointer);
          case NoEffect =>
        }
        todo := todo - {c};
      }
      pane := [];
      containers := map[];
      visible := false;
      o := Done;
    }
  }

  /** An insert scheduled by showModal and run later on the event thread. */
  datatype PendingInsert = PendingInsert(owner: Option<Component>, modal: ModalContent, option: ModalOption, id: ModalId)

  /** The event thread's queue of inserts posted by invokeLater and not yet run. */
  class EventQueue {
    var pending: seq<PendingInsert>

    constructor ()
      ensures pending == []
    {
      pending := [];
    }

    /** SwingUtilities.invokeLater: the insert runs after everything already posted. */
    method Post(p: PendingInsert)
      modifies this
      ensures pending == old(pending) + [p]
    {
      pending := pending + [p];
    }

    /** The event thread takes the oldest posted insert. */
    method Take() returns (p: PendingInsert)
      requires pending != []
      modifies this
      ensures p == old(pending[0]) && pending == old(pending[1..])
    {
      p := pending[0];
      pending := pending[1..];
    }
  }

  /** ModalManager: the window-to-layer map and the default options. */
  class ModalManager {
    var layers: map<Component, ModalContainerLayer>
    var defaultOption: ModalOption

    /** The layers the manager has created. */
    ghost var Surfaces: set<ModalContainerLayer>
    /** The containers it has created, closed ones included. */
    ghost var Hosted: set<ModalContainer>

    ghost predicate Valid()
      reads this, Surfaces
    {
      (forall w :: w in layers ==> layers[w] in Surfaces) &&
      forall w :: w in layers ==>
        layers[w].window == w && layers[w].Valid() &&
        layers[w].containers.Values <= Hosted
    }

    /** The created objects only grow, by newly allocated ones. */
    twostate predicate Grown()
      reads this
    {
      old(Surfaces) <= Surfaces && fresh(Surfaces - old(Surfaces)) &&
      old(Hosted) <= Hosted && fresh(Hosted - old(Hosted))
    }

    /** Whether some window's layer holds the id. */
    predicate IsRegistered(id: ModalId)
      reads this, layers.Values
    {
      exists w :: w in layers && id in layers[w].containers
    }

    /** The container a close through the registry may change: the one the chosen window's layer holds under the id. */
    function Closing(chosen: Option<Component>, id: ModalId): ModalContainer?
      reads this, layers.Values
    {
      if chosen.Some? && chosen.value in layers then layers[chosen.value].Held(id) else null
    }

    /** The id is held by the layer of window w and by no other layer. */
    predicate HeldOnlyBy(id: ModalId, w: Component)
      reads this, layers.Values
    {
      w in layers && id in layers[w].containers &&
      forall w' :: w' in layers && w' != w ==> id !in layers[w'].containers
    }

    /** The manager as first created: no layers, a fresh default option. */
    constructor ()
      ensures layers == map[] && fresh(defaultOption) && defaultOption.Value() == Defaults
      ensures Valid()
    {
      layers := map[];
      defaultOption := new ModalOption();
      Surfaces, Hosted := {}, {};
    }

    /** isIdExist: a walk over the layers, true as soon as one holds the id. */
    method IsIdExist(id: ModalId) returns (b: bool)
      ensures b <==> IsRegistered(id)
    {
      var todo := layers.Keys;
      while todo != {}
        invariant todo <= layers.Keys
        invariant forall w :: w in layers && w !in todo ==> id !in layers[w].containers
        decreases |todo|
      {
        var w :| w in todo;
        if layers[w].CheckId(id) {
          return true;
        }
        todo := todo - {w};
      }
      return false;
    }

    /** getModalContainerById: the window of some layer holding the id, or the not-found error. */
    method GetModalContainerById(id: ModalId) returns (r: Result<Component, EngineError>)
      ensures r.Success? ==> r.value in layers && id in layers[r.value].containers
      ensures r.Failure? <==> !IsRegistered(id)
      ensures r.Failure? ==> r.error == IllegalArgument(NotFoundMessage(id))
    {
      var todo := layers.Keys;
      while todo != {}
        invariant todo <= layers.Keys
        invariant forall w :: w in layers && w !in todo ==> id !in layers[w].containers
        decreases |todo|
      {
        var w :| w in todo;
        if layers[w].CheckId(id) {
          return Success(w);
        }
        todo := todo - {w};
      }
      return Failure(IllegalArgument(NotFoundMessage(id)));
    }

    /**
     * showModal(owner, modal, option, id): refused when any layer already
     * holds the id (a null id included); otherwise the insert is only
     * scheduled, so ids still pending are not seen by later checks.
     */
    method ShowModal(queue: EventQueue, owner: Option<Component>, modal: ModalContent, option: ModalOption, id: ModalId)
      returns (r: Option<EngineError>)
      modifies queue
      ensures IsRegistered(id) ==>
        r == Some(IllegalArgument(DuplicateIdMessage(id))) && queue.pending == old(queue.pending)
      ensures !IsRegistered(id) ==>
        r == None && queue.pending == old(queue.pending) + [PendingInsert(owner, modal, option, id)]
    {
      var exists_ := IsIdExist(id);
      if exists_ {
        return Some(IllegalArgument(DuplicateIdMessage(id)));
      }
      queue.Post(PendingInsert(owner, modal, option, id));
      r := None;
    }

    /** showModal(owner, modal, option): no id. */
    method ShowModalWithOption(queue: EventQueue, owner: Option<Component>, modal: ModalContent, option: ModalOption)
      returns (r: Option<EngineError>)
      modifies queue
      ensures IsRegistered(None) ==>
        r == Some(IllegalArgument("El ID 'null' ya existe")) && queue.pending == old(queue.pending)
      ensures !IsRegistered(None) ==>
        r == None && queue.pending == old(queue.pending) + [PendingInsert(owner, modal, option, None)]
    {
      assert DuplicateIdMessage(None) == "El ID 'null' ya existe";
      r := ShowModal(queue, owner, modal, option, None);
    }

    /** showModal(owner, modal): the default options object itself, and no id. */
    method ShowModalWithDefault(queue: EventQueue, owner: Option<Component>, modal: ModalContent)
      returns (r: Option<EngineError>)
      modifies queue
      ensures IsRegistered(None) ==> r.Some? && queue.pending == old(queue.pending)
      ensures !IsRegistered(None) ==>
        r == None && queue.pending == old(queue.pending) + [PendingInsert(owner, modal, defaultOption, None)]
    {
      r := ShowModalWithOption(queue, owner, modal, defaultOption);
    }

    /**
     * getModalContainer: the layer recorded for the owner's window, or a new
     * one recorded now. Existing entries are never removed or replaced.
     */
    method GetModalContainer(owner: Option<Component>) returns (r: Result<Component, EngineError>)
      requires Valid()
      modifies this`layers, this`Surfaces
      ensures Valid() && old(Surfaces) <= Surfaces && fresh(Surfaces - old(Surfaces))
      ensures forall w :: w in old(layers) ==> w in layers && layers[w] == old(layers[w])
      ensures RootPaneContainer(owner).Failure? ==>
        r == Failure(IllegalArgument(RootPaneContainer(owner).error)) && layers == old(layers) && Surfaces == old(Surfaces)
      ensures RootPaneContainer(owner).Success? ==>
        r == Success(RootPaneContainer(owner).value) && r.value in layers &&
        layers.Keys == old(layers.Keys) + {r.value}
      ensures r.Success? && r.value !in old(layers) ==>
        fresh(layers[r.value]) && layers[r.value].containers == map[] && layers[r.value].pane == []
    {
      var root := RootPaneContainer(owner);
      if root.Failure? {
        return Failure(IllegalArgument(root.error));
      }
      var w := root.value;
      if w !in layers {
        var layer := new ModalContainerLayer(w);
        layers := layers[w := layer];
        Surfaces := Surfaces + {layer};
      }
      r := Success(w);
    }

    /** createOption: a copy of the current default. */
    method CreateOption() returns (o: ModalOption)
      ensures fresh(o) && o.Value() == CopiedSettings(defaultOption.Value())
    {
      o := defaultOption.Copy();
    }

    method SetDefaultOption(option: ModalOption)
      modifies this`defaultOption
      ensures defaultOption == option
    {
      defaultOption := option;
    }

    /**
     * What addModal did to the registry: the window's layer (new, or the one
     * already recorded) has c on top of its pane and under the id in its map,
     * and is visible; c shows the content with the given options.
     */
    twostate predicate Added(w: Component, p: PendingInsert, new option: ModalOption, new c: ModalContainer)
      reads this, layers.Values, c, c.panel, p.modal
    {
      w in layers && layers.Keys == old(layers.Keys) + {w} &&
      (w !in old(layers) ==>
        fresh(layers[w]) && layers[w].containers == map[p.id := c] && layers[w].pane == [c]) &&
      (w in old(layers) ==>
        layers[w] == old(layers[w]) &&
        layers[w].containers == old(layers[w].containers)[p.id := c] && layers[w].pane == [c] + old(layers[w].pane)) &&
      layers[w].visible && c.id == p.id && c.option == option && c.showing && c.panel.content == p.modal &&
      p.modal.controller == c && p.modal.id == p.id && p.modal.installed
    }

    /**
     * The deferred part of showModal, run on the event thread: the owner's
     * window is resolved (failing there if there is none); the options are
     * copied only when they are, at this moment, the default object itself;
     * and the modal is added to the window's layer. The copy is made after
     * the window is resolved, which no caller can tell apart from the
     * source's order.
     */
    method RunInsert(p: PendingInsert) returns (r: Option<EngineError>, c: ModalContainer?)
      requires Valid()
      modifies this`layers, this`Surfaces, this`Hosted, layers.Values, p.modal
      ensures Valid() && Grown()
      ensures forall w :: w in old(layers) ==> w in layers && layers[w] == old(layers[w])
      ensures RootPaneContainer(p.owner).Failure? ==>
        r == Some(IllegalArgument(NullOwnerMessage)) && c == null && layers == old(layers) &&
        Surfaces == old(Surfaces) && Hosted == old(Hosted)
      ensures RootPaneContainer(p.owner).Success? ==>
        r == None && c != null && fresh(c) && Added(RootPaneContainer(p.owner).value, p, c.option, c)
      ensures c != null && p.option == defaultOption ==>
        fresh(c.option) && c.option.CopyOf(defaultOption.Value())
      ensures c != null && p.option != defaultOption ==> c.option == p.option
    {
      var root := GetModalContainer(p.owner);
      if root.Failure? {
        return Some(root.error), null;
      }
      c := AddToLayer(root.value, p);
      r := None;
    }

    /** The options an insert uses: a copy when they are, at this moment, the default object itself. */
    method OptionFor(option: ModalOption) returns (o: ModalOption)
      ensures option == defaultOption ==> fresh(o) && o.CopyOf(defaultOption.Value())
      ensures option != defaultOption ==> o == option
    {
      o := option;
      if option == defaultOption {
        o := option.Copy();
      }
    }

    /** addModal on a recorded window's layer, with the options chosen as OptionFor does; the new container joins the hosted ones. */
    method AddToLayer(w: Component, p: PendingInsert) returns (c: ModalContainer)
      requires Valid() && w in layers
      modifies this`Hosted, layers[w], p.modal
      ensures Valid() && Hosted == old(Hosted) + {c} && fresh(c)
      ensures layers[w].containers == old(layers[w].containers)[p.id := c] &&
        layers[w].pane == [c] + old(layers[w].pane) && layers[w].visible
      ensures c.id == p.id && c.showing && c.panel.content == p.modal
      ensures p.option == defaultOption ==> fresh(c.option) && c.option.CopyOf(defaultOption.Value())
      ensures p.option != defaultOption ==> c.option == p.option
      ensures p.modal.controller == c && p.modal.id == p.id && p.modal.installed
      ensures forall w' :: w' in layers && w' != w ==> unchanged(layers[w'])
    {
      var option := OptionFor(p.option);
      var layer := layers[w];
      c := layer.AddModal(p.modal, option, p.id);
      Hosted := Hosted + {c};
      forall w' | w' in layers && w' != w
        ensures layers[w'] != layer
      {
        assert layers[w'].window != layer.window;
      }
    }

    /**
     * closeModal(id): the not-found error when no layer holds the id;
     * otherwise the close of some layer that holds it (the HashMap's
     * iteration order decides which; `chosen` reports it).
     */
    method CloseModal(id: ModalId) returns (o: CloseOutcome, chosen: Option<Component>)
      requires Valid()
      modifies Surfaces, Hosted
      ensures Valid() && layers == old(layers)
      ensures !old(IsRegistered(id)) ==>
        o == Threw(IllegalArgument(NotFoundMessage(id))) && chosen == None && unchanged(old(Surfaces), old(Hosted))
      ensures old(IsRegistered(id)) ==>
        chosen.Some? && chosen.value in layers && id in old(layers[chosen.value].containers) &&
        layers[chosen.value].ClosedAs(id, old(layers[chosen.value].Held(id)), o)
      ensures forall w :: w in layers && chosen != Some(w) ==> unchanged(layers[w])
      ensures forall c :: c in old(Hosted) && c != old(Closing(chosen, id)) ==> unchanged(c)
    {
      var r := GetModalContainerById(id);
      if r.Failure? {
        return Threw(r.error), None;
      }
      chosen := Some(r.value);
      o := CloseInLayer(r.value, id);
    }

    /**
     * closeAllModal: every layer's closeAllModal, in the map's unspecified
     * order. A layer whose walk calls back into the registry or fails stops
     * the whole walk. When the walk finishes, every container that was
     * showing animated is left with its closing animator running, so its end
     * will still ask the registry to close its id.
     */
    method CloseAllModal() returns (o: CloseOutcome)
      requires Valid()
      modifies Surfaces, Hosted
      ensures Valid() && layers == old(layers)
      ensures o == Done ==> forall w :: w in layers ==> layers[w].Emptied()
      ensures o == Done ==> forall w, c :: w in layers && c in old(layers[w].containers.Values) ==>
        c.ClosedAfter(old(c.Valid()), old(c.showing))
      ensures o.Reentered? ==> IsRegistered(o.id)
      ensures o.Reentered? ==>
        (exists w, c :: w in layers && c in old(layers[w].containers.Values) && old(c.showing) && !c.option.animationEnabled)
      ensures o.Threw? ==> o.error == NullPointer
      ensures o.Threw? ==>
        (exists w, c :: w in layers && c in old(layers[w].containers.Values) &&
          old(c.showing) && c.option.animationEnabled && !old(c.hasAnimator))
    {
      ghost var wasHeld, wasValid, wasShowing, wasAnimator := BeginWalk();
      var todo := layers.Keys;
      ghost var closed: set<ModalContainer> := {};
      while todo != {}
        invariant ClosingWalk(todo, closed, wasHeld, wasValid, wasShowing, wasAnimator)
        decreases |todo|
      {
        var w :| w in todo;
        WalkFrame(w, todo, closed, wasHeld, wasValid, wasShowing, wasAnimator);
        o := CloseAllStep(w, todo, closed, wasHeld, wasValid, wasShowing, wasAnimator);
        if o != Done {
          return;
        }
        closed := closed + wasHeld[w].Values;
        todo := todo - {w};
      }
      WalkFinished(closed, wasHeld, wasValid, wasShowing, wasAnimator);
      o := Done;
    }

    /**
     * Where the manager's closeAllModal walk stands: the windows still `todo`
     * hold the containers they held at the start (`wasHeld`), the others are
     * emptied and their containers are among the `closed` ones; a closed
     * container is closed as its starting state (`wasValid`, `wasShowing`)
     * demands, and every other container is still in its starting state.
     */
    ghost predicate ClosingWalk(todo: set<Component>, closed: set<ModalContainer>,
                                wasHeld: map<Component, map<ModalId, ModalContainer>>,
                                wasValid: map<ModalContainer, bool>, wasShowing: map<ModalContainer, bool>,
                                wasAnimator: map<ModalContainer, bool>)
      reads this, Surfaces, Hosted, set c | c in Hosted :: c.option
    {
      Valid() && todo <= layers.Keys && layers.Keys <= wasHeld.Keys && closed <= Hosted &&
      Hosted <= wasValid.Keys && Hosted <= wasShowing.Keys && Hosted <= wasAnimator.Keys &&
      (forall w :: w in todo ==> layers[w].containers == wasHeld[w]) &&
      (forall w :: w in layers && w !in todo ==> layers[w].Emptied() && wasHeld[w].Values <= closed) &&
      (forall c :: c in closed ==> c.ClosedAfter(wasValid[c], wasShowing[c])) &&
      (forall c :: c in Hosted && c !in closed ==>
        c.Valid() == wasValid[c] && c.showing == wasShowing[c] && c.hasAnimator == wasAnimator[c])
    }

    /** The starting point of the closeAllModal walk: what every layer and container is now. */
    ghost method BeginWalk()
      returns (wasHeld: map<Component, map<ModalId, ModalContainer>>, wasValid: map<ModalContainer, bool>,
               wasShowing: map<ModalContainer, bool>, wasAnimator: map<ModalContainer, bool>)
      requires Valid()
      ensures ClosingWalk(layers.Keys, {}, wasHeld, wasValid, wasShowing, wasAnimator)
      ensures forall w :: w in layers ==> wasHeld[w] == layers[w].containers
      ensures forall c :: c in Hosted ==>
        wasValid[c] == c.Valid() && wasShowing[c] == c.showing && wasAnimator[c] == c.hasAnimator
    {
      wasHeld := map w | w in layers :: layers[w].containers;
      wasValid := map c | c in Hosted :: c.Valid();
      wasShowing := map c | c in Hosted :: c.showing;
      wasAnimator := map c | c in Hosted :: c.hasAnimator;
    }

    /** A window still to be walked has its layer and containers among the created ones. */
    lemma WalkFrame(w: Component, todo: set<Component>, closed: set<ModalContainer>,
                    wasHeld: map<Component, map<ModalId, ModalContainer>>,
                    wasValid: map<ModalContainer, bool>, wasShowing: map<ModalContainer, bool>,
                    wasAnimator: map<ModalContainer, bool>)
      requires w in todo && ClosingWalk(todo, closed, wasHeld, wasValid, wasShowing, wasAnimator)
      ensures w in layers && layers[w] in Surfaces && layers[w].containers.Values <= Hosted
    {
    }

    /** A walk with no window left has emptied every layer and closed every container it started with. */
    lemma WalkFinished(closed: set<ModalContainer>, wasHeld: map<Component, map<ModalId, ModalContainer>>,
                       wasValid: map<ModalContainer, bool>, wasShowing: map<ModalContainer, bool>,
                       wasAnimator: map<ModalContainer, bool>)
      requires ClosingWalk({}, closed, wasHeld, wasValid, wasShowing, wasAnimator)
      ensures Valid()
      ensures forall w :: w in layers ==> layers[w].Emptied()
      ensures forall w, c :: w in layers && c in wasHeld[w].Values ==> c.ClosedAfter(wasValid[c], wasShowing[c])
    {
    }

    /** One window's closeAllModal inside the manager's walk, moving the walk on by that window. */
    method CloseAllStep(w: Component, ghost todo: set<Component>, ghost closed: set<ModalContainer>,
                        ghost wasHeld: map<Component, map<ModalId, ModalContainer>>,
                        ghost wasValid: map<ModalContainer, bool>, ghost wasShowing: map<ModalContainer, bool>,
                        ghost wasAnimator: map<ModalContainer, bool>)
      returns (o: CloseOutcome)
      requires w in todo && ClosingWalk(todo, closed, wasHeld, wasValid, wasShowing, wasAnimator)
      modifies layers[w], layers[w].containers.Values
      ensures Valid()
      ensures o == Done ==> ClosingWalk(todo - {w}, closed + wasHeld[w].Values, wasHeld, wasValid, wasShowing, wasAnimator)
      ensures o.Reentered? ==> IsRegistered(o.id)
      ensures o.Reentered? ==>
        (exists c :: c in wasHeld[w].Values && wasShowing[c] && !c.option.animationEnabled)
      ensures o.Threw? ==> o.error == NullPointer
      ensures o.Threw? ==>
        (exists c :: c in wasHeld[w].Values && wasShowing[c] && c.option.animationEnabled && !wasAnimator[c])
    {
      ghost var cs := layers[w].containers.Values;
      assert cs <= Hosted;
      label before:
      o := CloseAllInLayer(w);
      if o.Reentered? {
        ghost var c :| c in cs && old@before(c.showing) && !c.option.animationEnabled;
        assert c !in closed;
        return;
      }
      if o.Threw? {
        ghost var c :| c in cs && old@before(c.showing) && c.option.animationEnabled && !old@before(c.hasAnimator);
        assert c !in closed;
        return;
      }
      forall c | c in closed + cs
        ensures c.ClosedAfter(wasValid[c], wasShowing[c])
      {
        if c in closed {
          assert !old@before(c.showing);
          assert unchanged@before(c);
        }
      }
      forall c | c in Hosted && c !in closed + cs
        ensures c.Valid() == wasValid[c] && c.showing == wasShowing[c] && c.hasAnimator == wasAnimator[c]
      {
        assert unchanged@before(c);
      }
    }

    /** One window's closeAllModal, inside the manager's walk. */
    method CloseAllInLayer(w: Component) returns (o: CloseOutcome)
      requires Valid() && w in layers
      modifies layers[w], layers[w].containers.Values
      ensures Valid()
      ensures forall w' :: w' in layers && w' != w ==> unchanged(layers[w'])
      ensures o == Done ==> layers[w].Emptied()
      ensures o == Done ==> forall c :: c in old(layers[w].containers.Values) ==>
        c.ClosedAfter(old(c.Valid()), old(c.showing))
      ensures forall c :: c in old(layers[w].containers.Values) && !old(c.showing) ==> unchanged(c)
      ensures o != Done ==> layers[w].containers == old(layers[w].containers)
      ensures o.Reentered? ==> IsRegistered(o.id)
      ensures o.Reentered? ==> exists c :: c in old(layers[w].containers.Values) && old(c.showing) && !c.option.animationEnabled
      ensures o.Threw? ==> o.error == NullPointer
      ensures o.Threw? ==>
        exists c :: c in old(layers[w].containers.Values) && old(c.showing) && c.option.animationEnabled && !old(c.hasAnimator)
    {
      var layer := layers[w];
      o := layer.CloseAllModal();
      forall w' | w' in layers && w' != w
        ensures layers[w'] != layer
      {
        assert layers[w'].window != layer.window;
      }
      if o.Reentered? {
        assert o.id in layers[w].containers;
      }
    }

    /** Perform what a container asked for: its call to closeModal, or its failure. */
    method Dispatch(e: Effect) returns (o: CloseOutcome, chosen: Option<Component>)
      requires Valid()
      modifies Surfaces, Hosted
      ensures Valid() && layers == old(layers)
      ensures e == NoEffect ==> o == Done && chosen == None && unchanged(old(Surfaces), old(Hosted))
      ensures e == NullAnimator ==> o == Threw(NullPointer) && chosen == None && unchanged(old(Surfaces), old(Hosted))
      ensures e.CloseThroughManager? && !old(IsRegistered(e.id)) ==>
        o == Threw(IllegalArgument(NotFoundMessage(e.id))) && chosen == None && unchanged(old(Surfaces), old(Hosted))
      ensures e.CloseThroughManager? && old(IsRegistered(e.id)) ==>
        chosen.Some? && chosen.value in layers && e.id in old(layers[chosen.value].containers) &&
        layers[chosen.value].ClosedAs(e.id, old(layers[chosen.value].Held(e.id)), o)
      ensures forall w :: w in layers && chosen != Some(w) ==> unchanged(layers[w])
      ensures forall c :: c in old(Hosted) && (e.CloseThroughManager? ==> c != old(Closing(chosen, e.id))) ==> unchanged(c)
    {
      match e
      case NoEffect => o, chosen := Done, None;
      case NullAnimator => o, chosen := Threw(NullPointer), None;
      case CloseThroughManager(id) => o, chosen := CloseModal(id);
    }

    /**
     * The end of a container's animation: the opened hook when it was
     * opening; otherwise removeModal, whose closeModal(id) goes through
     * the registry.
     */
    method AnimationEnd(c: ModalContainer) returns (o: CloseOutcome, chosen: Option<Component>)
      requires Valid() && c.Valid() && c.animatorRunning
      modifies c, c.panel.content, Surfaces, Hosted
      ensures Valid() && layers == old(layers)
      ensures old(c.showing) ==> o == Done && chosen == None
      ensures !old(c.showing) && !old(IsRegistered(c.id)) ==>
        o == Threw(IllegalArgument(NotFoundMessage(c.id))) && chosen == None
      ensures !old(c.showing) && old(IsRegistered(c.id)) ==>
        chosen.Some? && chosen.value in layers && c.id in old(layers[chosen.value].containers) &&
        layers[chosen.value].ClosedAs(c.id, old(layers[chosen.value].Held(c.id)), o)
      ensures !old(c.showing) && chosen.Some? && old(layers[chosen.value].containers[c.id]) == c ==>
        o == Done && c.id !in layers[chosen.value].containers &&
        layers[chosen.value].pane == Without(old(layers[chosen.value].pane), c) &&
        layers[chosen.value].visible == (layers[chosen.value].containers != map[])
      ensures forall w :: w in layers && chosen != Some(w) ==> unchanged(layers[w])
      ensures forall c' :: c' in old(Hosted) && c' != c && c' != old(Closing(chosen, c.id)) ==> unchanged(c')
    {
      var e := c.AnimatorEnd();
      o, chosen := Dispatch(e);
    }

    /**
     * A container's closeModal as its callers reach it: the close callback
     * its content was given, the escape key and a press on the backdrop.
     * With animation disabled the container's removeModal goes on to the
     * registry's closeModal(id).
     */
    method ContainerClose(c: ModalContainer) returns (o: CloseOutcome, chosen: Option<Component>)
      requires Valid() && c.Valid()
      modifies c, Surfaces, Hosted
      ensures Valid() && layers == old(layers)
      ensures !old(c.showing) ==> o == Done && chosen == None
      ensures old(c.showing) && old(c.option.animationEnabled) && old(c.hasAnimator) ==>
        o == Done && chosen == None && !c.showing && c.animatorRunning && c.Valid()
      ensures old(c.showing) && old(c.option.animationEnabled) && !old(c.hasAnimator) ==>
        o == Threw(NullPointer) && chosen == None
      ensures old(c.showing) && !old(c.option.animationEnabled) && !old(IsRegistered(c.id)) ==>
        o == Threw(IllegalArgument(NotFoundMessage(c.id))) && chosen == None
      ensures old(c.showing) && !old(c.option.animationEnabled) && old(IsRegistered(c.id)) ==>
        chosen.Some? && chosen.value in layers && c.id in old(layers[chosen.value].containers) &&
        layers[chosen.value].ClosedAs(c.id, old(layers[chosen.value].Held(c.id)), o)
      ensures forall w :: w in layers && chosen != Some(w) ==> unchanged(layers[w])
      ensures forall c' :: c' in old(Hosted) && c' != c && c' != old(Closing(chosen, c.id)) ==> unchanged(c')
    {
      var e := c.CloseModal();
      if e == NoEffect {
        return Done, None;
      }
      assert e.CloseThroughManager? ==>
        c.escapeAction == old(c.escapeAction) && c.escapeBound == (old(c.escapeBound) && !c.escapeAction) by {
        assert c.Snapshot().escapeBound == c.escapeBound && c.Snapshot().escapeAction == c.escapeAction;
      }
      o, chosen := Dispatch(e);
    }

    /** The close of one window's layer, seen from the manager. */
    method CloseInLayer(w: Component, id: ModalId) returns (o: CloseOutcome)
      requires Valid() && w in layers
      modifies layers[w], layers[w].containers.Values
      ensures Valid() && layers == old(layers)
      ensures layers[w].ClosedAs(id, old(layers[w].Held(id)), o)
      ensures forall w' :: w' in layers && w' != w ==> unchanged(layers[w'])
      ensures forall c :: c in old(Hosted) && c != old(layers[w].Held(id)) ==> unchanged(c)
    {
      var layer := layers[w];
      o := layer.CloseModal(id);
    }
  }

}
