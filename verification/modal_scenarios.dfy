/**
 * Sequences of calls on the modal registry, showing how its operations
 * combine: a close with animation disabled that never finishes, the two
 * ways an animated close can end, an animated closeAllModal whose
 * animations end in the not-found error, and two shows with the same id that
 * both get through because the insert is only scheduled.
 */
module ModalScenarios {
  import opened Wrappers
  import opened ModalOptions
  import opened ModalComponents
  import opened ModalRegistry

  /**
   * With animation disabled, closeModal(id) through the registry reaches
   * the container's removeModal, which calls closeModal(id) again before
   * anything is removed. Every nested call meets the same registry and the
   * same still-showing container, so however deep the nesting goes, the
   * close has not finished.
   */
  method DisabledCloseByIdNeverFinishes(m: ModalManager, w: Component, id: ModalId, depth: nat)
    returns (o: CloseOutcome)
    requires m.Valid() && m.HeldOnlyBy(id, w)
    requires var c := m.layers[w].containers[id]; c.Valid() && c.showing && !c.option.animationEnabled
    modifies m.Surfaces, m.Hosted
    ensures o == Reentered(id)
    ensures m.HeldOnlyBy(id, w) && m.layers[w].containers[id].showing
  {
    var c := m.layers[w].containers[id];
    var chosen;
    o, chosen := m.CloseModal(id);
    var i := 0;
    while i < depth
      invariant m.Valid() && m.HeldOnlyBy(id, w) && m.layers[w].containers[id] == c
      invariant c.Valid() && c.showing && o == Reentered(id)
    {
      o, chosen := m.CloseModal(id);
      i := i + 1;
    }
  }

  /**
   * Closing one id through the registry leaves a container held under any
   * other id, in the same window or another, exactly as it was.
   */
  method CloseKeepsOtherModals(m: ModalManager, id: ModalId, w: Component, other: ModalId)
    returns (o: CloseOutcome, c: ModalContainer)
    requires m.Valid() && w in m.layers && other in m.layers[w].containers && other != id
    modifies m.Surfaces, m.Hosted
    ensures c == old(m.layers[w].containers[other]) && c.id == other && unchanged(c)
  {
    c := m.layers[w].containers[other];
    var chosen;
    o, chosen := m.CloseModal(id);
  }

  /**
   * An animated container closed by id through the registry: the layer
   * starts the closing animation and removes the id at once, so when the
   * animation ends, removeModal's closeModal(id) finds no layer holding it
   * and fails with the not-found error.
   */
  method AnimatedCloseByIdFailsAtEnd(m: ModalManager, w: Component, id: ModalId)
    returns (first: CloseOutcome, second: CloseOutcome)
    requires m.Valid() && m.HeldOnlyBy(id, w)
    requires var c := m.layers[w].containers[id]; c.Valid() && c.showing && c.option.animationEnabled && c.hasAnimator
    modifies m.Surfaces, m.Hosted, m.layers[w].containers[id].panel.content
    ensures first == Done && second == Threw(IllegalArgument(NotFoundMessage(id)))
    ensures !m.IsRegistered(id)
  {
    var c := m.layers[w].containers[id];
    var chosen;
    first, chosen := m.CloseModal(id);
    assert chosen == Some(w);
    forall w' | w' in m.layers
      ensures id !in m.layers[w'].containers
    {
    }
    second, chosen := m.AnimationEnd(c);
  }

  /**
   * closeAllModal while every showing container is animated and has its
   * animator: the walk finishes and empties every layer, leaving each
   * closing animation running, so when one of them ends, removeModal's
   * closeModal(id) finds no layer holding the id and fails with the
   * not-found error.
   */
  method AnimatedCloseAllFailsAtEnd(m: ModalManager, w: Component, id: ModalId)
    returns (first: CloseOutcome, second: CloseOutcome)
    requires m.Valid() && w in m.layers && id in m.layers[w].containers
    requires forall v, k :: v in m.layers && k in m.layers[v].containers ==>
      var c := m.layers[v].containers[k];
      c.Valid() && (c.showing ==> c.option.animationEnabled && c.hasAnimator)
    requires m.layers[w].containers[id].showing
    modifies m.Surfaces, m.Hosted, m.layers[w].containers[id].panel.content
    ensures first == Done && second == Threw(IllegalArgument(NotFoundMessage(id)))
    ensures !m.IsRegistered(id)
  {
    var c := m.layers[w].containers[id];
    assert c in m.layers[w].containers.Values;
    first := m.CloseAllModal();
    assert c.ClosedAfter(true, true);
    var chosen;
    second, chosen := m.AnimationEnd(c);
  }

  /**
   * An animated container closed from its content (the close callback, the
   * escape key or a press outside): the registry is untouched while the
   * animation runs, and at its end removeModal's closeModal(id) removes
   * the container.
   */
  method AnimatedCloseFromContentCompletes(m: ModalManager, w: Component, id: ModalId)
    returns (first: CloseOutcome, second: CloseOutcome)
    requires m.Valid() && m.HeldOnlyBy(id, w)
    requires var c := m.layers[w].containers[id]; c.Valid() && c.showing && c.option.animationEnabled && c.hasAnimator
    modifies m.Surfaces, m.Hosted, m.layers[w].containers[id].panel.content
    ensures first == Done && second == Done
    ensures !m.IsRegistered(id)
  {
    var c := m.layers[w].containers[id];
    var chosen;
    first, chosen := m.ContainerClose(c);
    assert m.HeldOnlyBy(id, w) && m.layers[w].containers[id] == c;
    second, chosen := m.AnimationEnd(c);
    assert chosen == Some(w);
    forall w' | w' in m.layers
      ensures id !in m.layers[w'].containers
    {
    }
  }

  /**
   * Two shows with the same id before the event thread runs either insert:
   * both pass the duplicate check, and both inserts are scheduled.
   */
  method DuplicateIdsBothScheduled(m: ModalManager, q: EventQueue, owner: Option<Component>,
                                   a: ModalContent, b: ModalContent, option: ModalOption, id: ModalId)
    returns (r1: Option<EngineError>, r2: Option<EngineError>)
    requires !m.IsRegistered(id)
    modifies q
    ensures r1 == None && r2 == None
    ensures q.pending == old(q.pending) + [PendingInsert(owner, a, option, id), PendingInsert(owner, b, option, id)]
  {
    r1 := m.ShowModal(q, owner, a, option, id);
    r2 := m.ShowModal(q, owner, b, option, id);
  }

  /**
   * The two scheduled inserts with the same id, run in order on the
   * window's layer: the id names the second container, and the first
   * stays on the pane below it, still showing, with no id left to close
   * it by.
   */
  method DuplicateIdsBothInserted(layer: ModalContainerLayer, a: ModalContent, b: ModalContent,
                                  option: ModalOption, id: ModalId)
    returns (c1: ModalContainer, c2: ModalContainer)
    requires layer.Valid() && a != b
    modifies layer, a, b
    ensures c1 != c2 && c1.showing && c2.showing
    ensures id in layer.containers && layer.containers[id] == c2
    ensures |layer.pane| >= 2 && layer.pane[0] == c2 && layer.pane[1] == c1
  {
    c1 := layer.AddModal(a, option, id);
    c2 := layer.AddModal(b, option, id);
  }
}
