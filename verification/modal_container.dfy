/**
 * The per-modal objects: the content record, the panel that decorates
 * it, the animator that drives it, and the full-window container whose
 * show/close state machine ties them together.
 *
 * ModalContainer.removeModal ends with a call to the registry
 * (ModalManager.closeModal(id)). Here that call is not made from inside
 * the container: the method returns an Effect naming it, and the registry
 * module performs it. Everything before that call is modelled in place.
 */
module ModalComponents {
  import opened Wrappers
  import opened JavaText
  import opened ModalOptions
  import opened ModalLayout

  type ModalId = Option<string>

  /** What remains to be done after a container method returns. */
  datatype Effect =
    | NoEffect
      /** removeModal's final call ModalManager.closeModal(id). */
    | CloseThroughManager(id: ModalId)
      /** `animator.start()` on an animator that was never created. */
    | NullAnimator

  /** The content shown in a modal: its installed flag, the close callback it was given, its id. */
  class ModalContent {
    var installed: bool
    var installCount: nat
    var controller: ModalContainer?
    var id: ModalId
    /** How many focus-and-modalOpened notifications have been scheduled for it. */
    var openedScheduled: nat

    constructor ()
      ensures !installed && installCount == 0 && controller == null && id == None && openedScheduled == 0
    {
      installed, installCount, controller, id, openedScheduled := false, 0, null, None, 0;
    }
  }

  const PanelStyleTail := ";background:$Panel.background"

  /** The FlatLaf style string of a modal panel: the arc set to the roundness, then the panel background. */
  function PanelStyle(roundness: int): (s: string)
    ensures |s| == 4 + |IntToString(roundness)| + |PanelStyleTail|
    ensures s[..4] == "arc:" && s[|s| - |PanelStyleTail|..] == PanelStyleTail
    ensures s[4..|s| - |PanelStyleTail|] == IntToString(roundness)
  {
    "arc:" + IntToString(roundness) + PanelStyleTail
  }

  /** The style string determines the roundness it was built from. */
  lemma PanelStyleInjective(a: int, b: int)
    requires PanelStyle(a) == PanelStyle(b)
    ensures a == b
  {
    IntToStringInjective(a, b);
  }

  /** The empty border of a modal panel: the padding on all four sides. */
  function PanelBorder(padding: int): (b: Insets)
    ensures b.top == b.left == b.bottom == b.right == padding
  {
    Insets(padding, padding, padding, padding)
  }

  /** The composite alpha ModalPanel.paint applies: the progress while it is below 1, none otherwise. */
  function PanelComposite(progress: real): (alpha: Option<real>)
    ensures alpha.Some? <==> progress < 1.0
    ensures alpha.Some? ==> alpha.value == progress
  {
    if progress < 1.0 then Some(progress) else None
  }

  class ModalPanel {
    const style: string
    const border: Insets
    /** The content, added at BorderLayout.CENTER. */
    var content: ModalContent?

    constructor (option: ModalOption)
      ensures style == PanelStyle(option.roundness) && border == PanelBorder(option.padding)
      ensures content == null
    {
      style := PanelStyle(option.roundness);
      border := PanelBorder(option.padding);
      content := null;
    }

    /** initModal: record the content and install it unless it is already installed. */
    method InitModal(modal: ModalContent)
      modifies this, modal
      ensures content == modal
      ensures modal.installed
      ensures modal.installCount == old(modal.installCount) + (if old(modal.installed) then 0 else 1)
      ensures modal.controller == old(modal.controller) && modal.id == old(modal.id)
      ensures modal.openedScheduled == old(modal.openedScheduled)
    {
      content := modal;
      if !modal.installed {
        modal.installCount := modal.installCount + 1;
        modal.installed := true;
      }
    }

    /** modalOpened: schedule focus and the content's opened hook, if there is content. */
    method ModalOpened()
      modifies content
      ensures content == old(content)
      ensures content != null ==>
        content.openedScheduled == old(content.openedScheduled) + 1 &&
        content.installed == old(content.installed) && content.installCount == old(content.installCount) &&
        content.controller == old(content.controller) && content.id == old(content.id)
    {
      if content != null {
        content.openedScheduled := content.openedScheduled + 1;
      }
    }
  }

  /** The fields of a container that its methods change, its animator's included. */
  datatype ContainerState = ContainerState(
    hasAnimator: bool, animatorDuration: int, animatorRunning: bool, animatorStarts: nat,
    showing: bool, animate: real,
    escapeAction: bool, escapeBound: bool, clickListeners: nat)

  class ModalContainer {
    const id: ModalId
    /** The options object, shared with whoever passed it in. */
    const option: ModalOption
    const panel: ModalPanel
    /**
     * The FlatLaf animator the source creates lazily on the first animated
     * showModal, kept as fields of its only owner: whether it exists, its
     * duration, whether it is running and how often it was started. Its
     * timing and end events are AnimatorTick and AnimatorEnd.
     */
    var hasAnimator: bool
    var animatorDuration: int
    var animatorRunning: bool
    var animatorStarts: nat
    var showing: bool
    /** Progress of the current animation, from 0 (hidden) to 1 (fully shown). */
    var animate: real
    /** Whether an escape action was ever created; it is never cleared. */
    var escapeAction: bool
    /** Whether the escape key is currently registered. */
    var escapeBound: bool
    /** Click-outside listeners added so far; none is ever removed. */
    var clickListeners: nat

    ghost predicate Valid()
      reads this
    {
      0.0 <= animate <= 1.0 && (escapeBound ==> escapeAction) &&
      (!hasAnimator ==> !animatorRunning && animatorStarts == 0)
    }

    function Snapshot(): ContainerState
      reads this
    {
      ContainerState(hasAnimator, animatorDuration, animatorRunning, animatorStarts,
        showing, animate, escapeAction, escapeBound, clickListeners)
    }

    predicate Unchanged(s: ContainerState)
      reads this
    {
      Snapshot() == s
    }

    /** The content's opened hook was scheduled once more, and the content is otherwise untouched. */
    twostate predicate OpenedOnce()
      reads this, panel, panel.content
    {
      panel.content == old(panel.content) &&
      (panel.content != null ==>
        panel.content.openedScheduled == old(panel.content.openedScheduled) + 1 &&
        panel.content.installed == old(panel.content.installed) &&
        panel.content.installCount == old(panel.content.installCount) &&
        panel.content.controller == old(panel.content.controller) &&
        panel.content.id == old(panel.content.id))
    }

    constructor (option: ModalOption, id: ModalId)
      ensures this.id == id && this.option == option
      ensures fresh(panel) && panel.content == null
      ensures panel.style == PanelStyle(option.roundness) && panel.border == PanelBorder(option.padding)
      ensures Unchanged(ContainerState(false, 0, false, 0, false, 1.0, false, false, 0))
      ensures Valid()
    {
      this.id := id;
      this.option := option;
      panel := new ModalPanel(option);
      hasAnimator, animatorDuration, animatorRunning, animatorStarts := false, 0, false, 0;
      showing := false;
      animate := 1.0;
      escapeAction, escapeBound, clickListeners := false, false, 0;
    }

    /** initModal: the panel takes the content, and the content's close callback is this container's CloseModal. */
    method InitModal(modal: ModalContent)
      modifies panel, modal
      ensures panel.content == modal && modal.controller == this
      ensures modal.installed
      ensures modal.installCount == old(modal.installCount) + (if old(modal.installed) then 0 else 1)
      ensures modal.id == old(modal.id) && modal.openedScheduled == old(modal.openedScheduled)
    {
      panel.InitModal(modal);
      modal.controller := this;
    }

    /**
     * showModal. Animation disabled: showing at once, opened hook scheduled,
     * no handlers. Animation enabled: the animator is created on the first
     * call only (with the duration the options hold then), progress
     * restarts at 0, handlers are installed and the animator is started.
     */
    method ShowModal()
      requires Valid()
      modifies this, panel.content
      ensures Valid() && showing
      ensures !option.animationEnabled ==>
        Unchanged(old(Snapshot()).(showing := true)) && OpenedOnce()
      ensures option.animationEnabled ==>
        Unchanged(old(Snapshot()).(
          hasAnimator := true,
          animatorDuration := if old(hasAnimator) then old(animatorDuration) else option.duration,
          animatorRunning := true,
          animatorStarts := old(animatorStarts) + 1,
          showing := true,
          animate := 0.0,
          escapeAction := old(escapeAction) || option.closeOnEscape,
          escapeBound := old(escapeBound) || option.closeOnEscape,
          clickListeners := old(clickListeners) + (if option.closeOnClickOutside then 1 else 0))) &&
        panel.content == old(panel.content) &&
        (panel.content != null ==> unchanged(panel.content))
    {
      if !option.animationEnabled {
        showing := true;
        panel.ModalOpened();
        return;
      }
      if !hasAnimator {
        hasAnimator, animatorDuration := true, option.duration;
      }
      showing := true;
      animate := 0.0;
      InstallOptions();
      StartAnimator();
    }

    /** Animator.start: running, one more start. */
    method StartAnimator()
      requires hasAnimator
      modifies this
      ensures Unchanged(old(Snapshot()).(animatorRunning := true, animatorStarts := old(animatorStarts) + 1))
    {
      animatorRunning := true;
      animatorStarts := animatorStarts + 1;
    }

    /**
     * closeModal. Not showing: nothing happens. Animation enabled: showing
     * becomes false and the animator restarts (an animator never created
     * makes the start fail). Animation disabled: removeModal runs while
     * showing is still true.
     */
    method CloseModal() returns (e: Effect)
      modifies this
      ensures old(Valid()) ==> Valid()
      ensures !old(showing) ==> e == NoEffect && unchanged(this)
      ensures old(showing) && option.animationEnabled && old(hasAnimator) ==>
        e == NoEffect &&
        Unchanged(old(Snapshot()).(showing := false, animatorRunning := true, animatorStarts := old(animatorStarts) + 1))
      ensures old(showing) && option.animationEnabled && !old(hasAnimator) ==>
        e == NullAnimator && Unchanged(old(Snapshot()).(showing := false))
      ensures old(showing) && !option.animationEnabled ==>
        e == CloseThroughManager(id) &&
        Unchanged(old(Snapshot()).(escapeBound := old(escapeBound) && !escapeAction))
    {
      if !showing {
        return NoEffect;
      }
      if option.animationEnabled {
        showing := false;
        if !hasAnimator {
          return NullAnimator;
        }
        StartAnimator();
        e := NoEffect;
      } else {
        e := RemoveModal();
      }
    }

    /**
     * closeModal as its disabled-animation branch evidently means to work:
     * the container stops showing before removeModal, so the registry's
     * nested closeModal of the same container finds it closed and returns.
     */
    method CloseModalHidingFirst() returns (e: Effect)
      modifies this
      ensures old(Valid()) ==> Valid()
      ensures !old(showing) ==> e == NoEffect && Unchanged(old(Snapshot()))
      ensures old(showing) && option.animationEnabled && old(hasAnimator) ==>
        e == NoEffect &&
        Unchanged(old(Snapshot()).(showing := false, animatorRunning := true, animatorStarts := old(animatorStarts) + 1))
      ensures old(showing) && option.animationEnabled && !old(hasAnimator) ==>
        e == NullAnimator && Unchanged(old(Snapshot()).(showing := false))
      ensures old(showing) && !option.animationEnabled ==>
        e == CloseThroughManager(id) &&
        Unchanged(old(Snapshot()).(showing := false, escapeBound := old(escapeBound) && !escapeAction))
    {
      if showing && !option.animationEnabled {
        showing := false;
        e := RemoveModal();
      } else {
        e := CloseModal();
      }
    }

    /** removeModal: unregister the escape key, then ask the registry to close this id. */
    method RemoveModal() returns (e: Effect)
      modifies this
      ensures old(Valid()) ==> Valid()
      ensures e == CloseThroughManager(id)
      ensures Unchanged(old(Snapshot()).(escapeBound := old(escapeBound) && !escapeAction))
    {
      UninstallOptions();
      e := CloseThroughManager(id);
    }

    /** installOptions: bind escape and add a click-outside listener, each only if its option is on. */
    method InstallOptions()
      requires Valid()
      modifies this
      ensures Valid()
      ensures Unchanged(old(Snapshot()).(
        escapeAction := old(escapeAction) || option.closeOnEscape,
        escapeBound := old(escapeBound) || option.closeOnEscape,
        clickListeners := old(clickListeners) + (if option.closeOnClickOutside then 1 else 0)))
    {
      if option.closeOnEscape {
        escapeAction := true;
        escapeBound := true;
      }
      if option.closeOnClickOutside {
        clickListeners := clickListeners + 1;
      }
    }

    /** uninstallOptions: unregister the escape key if an escape action exists; listeners stay. */
    method UninstallOptions()
      modifies this
      ensures old(Valid()) ==> Valid()
      ensures Unchanged(old(Snapshot()).(escapeBound := old(escapeBound) && !escapeAction))
    {
      if escapeAction {
        escapeBound := false;
      }
    }

    /** A timing event of the running animator: progress runs 0 to 1 while showing and 1 to 0 while closing. */
    method AnimatorTick(v: real)
      requires Valid() && animatorRunning && 0.0 <= v <= 1.0
      modifies this
      ensures Valid()
      ensures animate == (if showing then v else 1.0 - v)
      ensures Unchanged(old(Snapshot()).(animate := animate))
    {
      animate := if showing then v else 1.0 - v;
    }

    /** The end event of the running animator: it stops, then the opened hook when showing, removeModal otherwise. */
    method AnimatorEnd() returns (e: Effect)
      requires Valid() && animatorRunning
      modifies this, panel.content
      ensures Valid()
      ensures old(showing) ==>
        e == NoEffect && Unchanged(old(Snapshot()).(animatorRunning := false)) && OpenedOnce()
      ensures !old(showing) ==>
        e == CloseThroughManager(id) &&
        Unchanged(old(Snapshot()).(animatorRunning := false, escapeBound := old(escapeBound) && !escapeAction)) &&
        panel.content == old(panel.content) &&
        (panel.content != null ==> unchanged(panel.content))
    {
      animatorRunning := false;
      if showing {
        panel.ModalOpened();
        e := NoEffect;
      } else {
        e := RemoveModal();
      }
    }

    /** The escape key, while bound: closeModal, with all of its outcomes. */
    method PressEscape() returns (e: Effect)
      requires Valid() && escapeBound
      modifies this
      ensures Valid()
      ensures !old(showing) ==> e == NoEffect && Unchanged(old(Snapshot()))
      ensures old(showing) && option.animationEnabled && old(hasAnimator) ==>
        e == NoEffect &&
        Unchanged(old(Snapshot()).(showing := false, animatorRunning := true, animatorStarts := old(animatorStarts) + 1))
      ensures old(showing) && option.animationEnabled && !old(hasAnimator) ==>
        e == NullAnimator && Unchanged(old(Snapshot()).(showing := false))
      ensures old(showing) && !option.animationEnabled ==>
        e == CloseThroughManager(id) && Unchanged(old(Snapshot()).(escapeBound := false))
    {
      e := CloseModal();
    }

    /**
     * A press on the backdrop, with at least one listener added. Every
     * listener calls closeModal; after the first, showing is false (or the
     * first never returns), so one call stands for all of them.
     */
    method PressOutside() returns (e: Effect)
      requires Valid() && clickListeners > 0
      modifies this
      ensures Valid()
      ensures !old(showing) ==> e == NoEffect && Unchanged(old(Snapshot()))
      ensures old(showing) && option.animationEnabled && old(hasAnimator) ==>
        e == NoEffect &&
        Unchanged(old(Snapshot()).(showing := false, animatorRunning := true, animatorStarts := old(animatorStarts) + 1))
      ensures old(showing) && option.animationEnabled && !old(hasAnimator) ==>
        e == NullAnimator && Unchanged(old(Snapshot()).(showing := false))
      ensures old(showing) && !option.animationEnabled ==>
        e == CloseThroughManager(id) &&
        Unchanged(old(Snapshot()).(escapeBound := old(escapeBound) && !escapeAction))
    {
      e := CloseModal();
    }

    /**
     * What a close leaves behind, given whether the container was valid and
     * showing before it: it no longer shows, it is still valid, and a showing
     * animated container has its (closing) animator running.
     */
    ghost predicate ClosedAfter(wasValid: bool, wasShowing: bool)
      reads this, option
    {
      !showing && (wasValid ==> Valid()) &&
      (wasShowing && option.animationEnabled ==> hasAnimator && animatorRunning)
    }
  }

  /** ModalContainer.paintComponent fills the backdrop only while opacity times progress is positive. */
  function BackdropAlpha(opacity: real, progress: real): (alpha: Option<real>)
    ensures alpha.Some? <==> opacity * progress > 0.0
    ensures alpha.Some? ==> alpha.value == opacity * progress
  {
    var a := opacity * progress;
    if a > 0.0 then Some(a) else None
  }

  /** A fully hidden container (progress 0) paints no backdrop, whatever the opacity. */
  lemma HiddenPaintsNoBackdrop(opacity: real)
    ensures BackdropAlpha(opacity, 0.0) == None
  {
  }
}
