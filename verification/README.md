# SalonCapelli core, modelled in Dafny

SalonCapelli is a desktop application for a hair salon: it keeps a file
of clients and shows forms in sliding modal panels. This project models
three parts of it and proves properties about them.

- **The modal engine** (`app.option.ModalOption`, `app.component.*`,
  `app.system.ModalManager`):
  - the option object with its fluent setters and `copy()`;
  - the placement arithmetic of a modal inside its window;
  - the container with its show and close animation, escape key and
    click-outside gestures;
  - the per-window layer that holds containers by id;
  - the registry (`ModalManager`) that resolves a window, refuses
    duplicate ids and defers each insert to the event thread.
- **The validation framework** (`app.exception.ValidationException`,
  `app.util.validator.*`):
  - validation errors, results and the exception's message;
  - the `Validator.and` combinator;
  - the rule builder `ValidatorBuilder` and the validators it builds;
  - the Venezuelan validator for cédula, telephone and name, with its
    normalisations.
- **Client data handling** (`app.model.Cliente`, `app.model.TipoCabello`,
  `app.util.ToastNotification`, `app.view.ClientesView`,
  `app.view.modals.ClienteModal`, `app.view.forms.ClienteForm`):
  - the client record and the hair-type enumeration;
  - the toast texts;
  - the client list with its local search and its edit action;
  - the create/edit modal that validates and saves a client;
  - the plain client form.

Code that changes objects in place is modelled as Dafny classes whose
methods carry `modifies` clauses. This covers the option, the containers,
the layers, the registry, `Cliente`, the list view, the modal and the form.

Each such method is proved against a function or predicate. Properties of
those functions are proved as lemmas. Pure code (the validators, the
normalisers, the message builders, the placement arithmetic) is written
as functions and lemmas.

Java's `null` is `None` of an `Option`, and a Java `String` is a
`seq<char>`. `String.trim`, ASCII upper and lower case, `contains`,
`replace(" ", "")` and `replaceAll("\\s+", "")` are written out in
module `JavaText`.

The three regular expressions of the Venezuelan validator are written as
predicates in module `Patterns`:
- cédula: `^[VEve]-?\d{7,8}$`;
- telephone: the 54 area codes, an optional separator, seven digits;
- name: letters, accented vowels, ñ and whitespace.

Some Swing behaviour becomes explicit state, and outside services become
parameters:
- `SwingUtilities.invokeLater` is an explicit queue of pending inserts
  (class `EventQueue`).
- The animator is four fields of the container.
- Every component-to-registry call (`removeModal` calling
  `ModalManager.closeModal`) is returned as an `Effect` value that the
  registry dispatches.
- The clock, the repository's answers and java.time parsing and
  formatting are parameters.

Two differences between the modal and the form are kept as the code has
them:
- `ClienteModal` stores a blank telephone as `null`.
- `ClienteForm.getData` stores it as the empty string, because it
  writes every trimmed text, blank or not.

## Model

| member | source | states |
|---|---|---|
| ModalOptions.CopyColorDropsAlpha | src/main/java/app/option/ModalOption.java:154 | copying a colour through `new Color(getRGB())` keeps red, green and blue and makes it opaque: the alpha of the copy is 255 whatever the original's was |
| ModalOptions.DefaultColorCopiesOpaque | src/main/java/app/option/ModalOption.java:18 | the default colour is black at alpha 128, and copying the default options turns it into opaque black and changes nothing else |
| ModalOptions.ModalOption.constructor | src/main/java/app/option/ModalOption.java:11-28 | a new option holds the field initialisers: centred on both axes, margin 20, padding 20, roundness 15, black at alpha 128, opacity 0.5, animation on for 300 ms right to left, and both escape and a click outside close |
| ModalOptions.ModalOption.GetDefault | src/main/java/app/option/ModalOption.java:30-32 | getDefault returns a fresh option holding the initial values |
| ModalOptions.ModalOption.SetHorizontalPosition | src/main/java/app/option/ModalOption.java:84-87 | the horizontal position is replaced, every other field is unchanged, and the same object is returned for chaining |
| ModalOptions.ModalOption.SetVerticalPosition | src/main/java/app/option/ModalOption.java:89-92 | the vertical position is replaced, nothing else changes, and the same object is returned |
| ModalOptions.ModalOption.SetMargin | src/main/java/app/option/ModalOption.java:94-97 | the margin is replaced, nothing else changes, and the same object is returned |
| ModalOptions.ModalOption.SetPadding | src/main/java/app/option/ModalOption.java:99-102 | the padding is replaced, nothing else changes, and the same object is returned |
| ModalOptions.ModalOption.SetRoundness | src/main/java/app/option/ModalOption.java:104-107 | the roundness is replaced, nothing else changes, and the same object is returned |
| ModalOptions.ModalOption.SetBackgroundColor | src/main/java/app/option/ModalOption.java:109-112 | the colour is replaced, nothing else changes, and the same object is returned |
| ModalOptions.ModalOption.SetBackgroundOpacity | src/main/java/app/option/ModalOption.java:114-117 | the opacity is replaced, nothing else changes, and the same object is returned |
| ModalOptions.ModalOption.SetAnimationEnabled | src/main/java/app/option/ModalOption.java:119-122 | the animation flag is replaced, nothing else changes, and the same object is returned |
| ModalOptions.ModalOption.SetDuration | src/main/java/app/option/ModalOption.java:124-127 | the duration is replaced, nothing else changes, and the same object is returned |
| ModalOptions.ModalOption.SetAnimationDirection | src/main/java/app/option/ModalOption.java:129-132 | the animation direction is replaced, nothing else changes, and the same object is returned |
| ModalOptions.ModalOption.SetCloseOnEscape | src/main/java/app/option/ModalOption.java:134-137 | the escape flag is replaced, nothing else changes, and the same object is returned |
| ModalOptions.ModalOption.SetCloseOnClickOutside | src/main/java/app/option/ModalOption.java:139-142 | the click-outside flag is replaced, nothing else changes, and the same object is returned |
| ModalOptions.ModalOption.Copy | src/main/java/app/option/ModalOption.java:147-162 | copy returns a fresh option equal to the original in every field except the colour, which is rebuilt from its packed RGB value and so loses its alpha |
| ModalOptions.CopyIsIndependent | src/main/java/app/option/ModalOption.java:147-162 | the copy is a different object: setting its margin, opacity and colour leaves the source as it was |
| ModalLayout.HalfTowardZero | src/main/java/app/component/ModalContainer.java:193 | Java's `/ 2` on int truncates toward zero: the result times two is within one of the operand, on the operand's side of zero |
| ModalLayout.HalfTowardZeroDiffersFromFloor | src/main/java/app/component/ModalContainer.java:193 | for a negative odd operand, such as -3, truncating halving differs from flooring halving |
| ModalLayout.CalculateX | src/main/java/app/component/ModalContainer.java:185-195 | Left keeps the margin to the left edge and Right to the right edge; any other value centres, the odd pixel going right when the panel fits and left when it overflows |
| ModalLayout.CalculateY | src/main/java/app/component/ModalContainer.java:197-207 | the same rule on the vertical axis, with Top and Bottom as the edge values |
| ModalLayout.AxisValuesDoNotCross | src/main/java/app/component/ModalContainer.java:185-207 | the axes do not share values: Left given for the vertical axis and Top given for the horizontal axis both centre |
| ModalLayout.LayoutModal | src/main/java/app/component/ModalContainer.java:173-183 | only the first child is placed, at its preferred size and at the position the two axis calculations give; a container without children is left alone |
| ModalLayout.DefaultPlacementExample | src/main/java/app/component/ModalContainer.java:173-183 | with the default options an 800×600 window centres a 300×200 panel at (250, 200); Left/Top and Right/Bottom place it 20 pixels from the edges |
| ModalLayout.LayoutFrame | src/main/java/app/system/ModalManager.java:199-210 | the modal layer and the content pane get the content pane's y and height and the root width less the horizontal insets; the layer starts at the left inset, the content pane at 0 |
| ModalLayout.InsideInsets | src/main/java/app/system/ModalManager.java:289-293 | the area inside the insets starts at the left and top insets and is smaller by both insets on each axis |
| ModalLayout.LayoutModalLayer | src/main/java/app/system/ModalManager.java:287-301 | every child that is a modal container is stretched over the area inside the insets; other children keep their bounds |
| ModalComponents.ModalContent.constructor | src/main/java/app/component/Modal.java:14-16 | a new content is not installed, has no controller and no id, and has no opened notification scheduled |
| ModalComponents.PanelStyle | src/main/java/app/component/ModalPanel.java:32-34 | the panel style is "arc:", the roundness in decimal, then the panel background key, and nothing else |
| ModalComponents.PanelStyleInjective | src/main/java/app/component/ModalPanel.java:32-34 | the panel's style text determines the roundness it was built from |
| ModalComponents.PanelBorder | src/main/java/app/component/ModalPanel.java:37-38 | the panel's border is the padding on all four sides |
| ModalComponents.PanelComposite | src/main/java/app/component/ModalPanel.java:60-67 | the panel paints with the animation's progress as alpha while it is below 1, and with no composite otherwise |
| ModalComponents.ModalPanel.constructor | src/main/java/app/component/ModalPanel.java:21-39 | the panel's style comes from the option's roundness and its border from the padding; it holds no content yet |
| ModalComponents.ModalPanel.InitModal | src/main/java/app/component/ModalPanel.java:41-48 | initModal records the content and installs it unless it is already installed; nothing else of the content changes |
| ModalComponents.ModalPanel.ModalOpened | src/main/java/app/component/ModalPanel.java:50-57 | modalOpened schedules one more opened notification for the content, if there is one, and changes nothing else |
| ModalComponents.ModalContainer.constructor | src/main/java/app/component/ModalContainer.java:30-42 | a new container holds its id, its option and a fresh panel styled from the option; it is not showing, has no animator, no escape binding and no click listener |
| ModalComponents.ModalContainer.InitModal | src/main/java/app/component/ModalContainer.java:44-47 | the panel takes the content, which is installed (once) and gets the container as its controller |
| ModalComponents.ModalContainer.ShowModal | src/main/java/app/component/ModalContainer.java:49-81 | animation off: the container shows at once and the opened hook is scheduled. Animation on: the animator is created on the first show only (with the duration the option holds then), the progress restarts at 0, the handlers are installed and the animator is started |
| ModalComponents.ModalContainer.StartAnimator | src/main/java/app/component/ModalContainer.java:80 | starting the animator leaves it running, with one more start recorded |
| ModalComponents.ModalContainer.CloseModal | src/main/java/app/component/ModalContainer.java:83-92 | not showing: nothing changes. Animation on: it stops showing and the animator restarts, and an animator never created throws NullPointerException. Animation off: removeModal runs while it still shows, and the registry is asked to close the id |
| ModalComponents.ModalContainer.CloseModalHidingFirst | src/main/java/app/component/ModalContainer.java:83-92 | the corrected close: with animation off the container stops showing before removeModal, and every other case is as closeModal |
| ModalComponents.ModalContainer.RemoveModal | src/main/java/app/component/ModalContainer.java:94-97 | removeModal unbinds the escape key when an escape action exists, asks the registry to close the container's id, and changes nothing else |
| ModalComponents.ModalContainer.InstallOptions | src/main/java/app/component/ModalContainer.java:99-117 | the escape key is bound when the option says escape closes, and the outside-press listener is installed when the option says a click outside closes |
| ModalComponents.ModalContainer.UninstallOptions | src/main/java/app/component/ModalContainer.java:119-123 | the escape key is unbound when an escape action exists; click listeners stay |
| ModalComponents.ModalContainer.AnimatorTick | src/main/java/app/component/ModalContainer.java:59-63 | a timing event sets the progress to v while showing and to 1 - v while closing, and changes nothing else |
| ModalComponents.ModalContainer.AnimatorEnd | src/main/java/app/component/ModalContainer.java:66-72 | the animator stops; a showing container schedules its opened hook, and a closed one runs removeModal and asks the registry to close its id |
| ModalComponents.ModalContainer.PressEscape | src/main/java/app/component/ModalContainer.java:100-105 | the bound escape key runs closeModal with all its outcomes: nothing changes when not showing; animated, it stops showing and the animator restarts, or NullPointerException without an animator; not animated, the key is unbound and the registry is asked to close the id, with the rest of the state unchanged |
| ModalComponents.ModalContainer.PressOutside | src/main/java/app/component/ModalContainer.java:107-116 | a press on the backdrop, once a listener is installed, runs closeModal with the same outcomes and the same snapshot of the new state; without animation the escape binding is dropped when one was installed |
| ModalComponents.BackdropAlpha | src/main/java/app/component/ModalContainer.java:126-136 | the backdrop is filled at opacity times progress, and only when that product is positive |
| ModalComponents.HiddenPaintsNoBackdrop | src/main/java/app/component/ModalContainer.java:126-136 | at progress 0 no backdrop is painted, whatever the opacity |
| ModalRegistry.DuplicateIdMessage | src/main/java/app/system/ModalManager.java:56 | the duplicate-id message quotes the id between single quotes |
| ModalRegistry.NotFoundMessage | src/main/java/app/system/ModalManager.java:137 | the not-found message quotes the id between single quotes and is never the duplicate-id message for the same id |
| ModalRegistry.RootPaneContainer | src/main/java/app/system/ModalManager.java:106-114 | getRootPaneContainer yields a frame or dialog, or fails with "El componente padre no puede ser null" when the walk reaches null |
| ModalRegistry.RootIsNearestWindow | src/main/java/app/system/ModalManager.java:106-114 | the window found is the first window on the owner's parent chain, the owner included; a failure means the chain holds no window |
| ModalRegistry.Without | src/main/java/app/system/ModalManager.java:242 | removing a container from the pane keeps every other entry and drops that container; the pane never grows |
| ModalRegistry.WithoutSingle | src/main/java/app/system/ModalManager.java:242 | removing a container that occurs once drops exactly its position |
| ModalRegistry.WithoutPastHead | src/main/java/app/system/ModalManager.java:242 | the single-occurrence removal carries over past a first entry that is another container |
| ModalRegistry.WithoutAbsent | src/main/java/app/system/ModalManager.java:242 | removing a container that is not on the pane leaves the pane as it was |
| ModalRegistry.ModalContainerLayer.constructor | src/main/java/app/system/ModalManager.java:221-226 | a new layer belongs to its window, holds no containers, has an empty pane and is visible, as a new JLayeredPane is |
| ModalRegistry.ModalContainerLayer.AddModal | src/main/java/app/system/ModalManager.java:228-236 | addModal puts a fresh, showing container at the front of the pane, gives the content the container as controller and the id, records the container under the id (replacing any earlier holder) and shows the layer |
| ModalRegistry.ModalContainerLayer.CloseModal | src/main/java/app/system/ModalManager.java:238-248 | an unknown id changes nothing. A known id whose container closes is taken off the pane and out of the map, and the layer hides when the map is empty. A container without animation re-enters the registry before anything is removed, and an animated one without an animator throws; in both cases nothing is removed |
| ModalRegistry.ModalContainerLayer.CloseModalHidingFirst | src/main/java/app/system/ModalManager.java:238-248 | with the corrected container close, every close of a known id finishes with the container removed and not showing, except a missing animator, which throws |
| ModalRegistry.ModalContainerLayer.RemoveEntry | src/main/java/app/system/ModalManager.java:242-246 | the container leaves the pane and the id leaves the map; the layer hides when no container is left |
| ModalRegistry.ModalContainerLayer.CloseAllModal | src/main/java/app/system/ModalManager.java:250-255 | every container is closed, then the pane and the map are emptied and the layer hidden; each container that was showing animated keeps its closing animator running and stays valid, and one that was not showing is untouched. A re-entry (a showing container without animation) or a NullPointerException (a showing animated one without an animator) stops the walk with nothing removed |
| ModalRegistry.ModalContainerLayer.CheckId | src/main/java/app/system/ModalManager.java:257-259 | in a valid layer, an id that checks out names a container with that id, on the pane |
| ModalRegistry.EventQueue.constructor | src/main/java/app/system/ModalManager.java:59-62 | a new event queue holds nothing |
| ModalRegistry.EventQueue.Post | src/main/java/app/system/ModalManager.java:59-62 | invokeLater appends the insert at the end of the queue |
| ModalRegistry.EventQueue.Take | src/main/java/app/system/ModalManager.java:59-62 | the event thread takes the oldest pending insert first |
| ModalRegistry.ModalManager.constructor | src/main/java/app/system/ModalManager.java:25-28 | a new registry has no layers, and its default option is a fresh one holding the initial values |
| ModalRegistry.ModalManager.IsIdExist | src/main/java/app/system/ModalManager.java:119-126 | isIdExist is true exactly when some window's layer holds the id |
| ModalRegistry.ModalManager.GetModalContainerById | src/main/java/app/system/ModalManager.java:131-138 | the layer found holds the id; when no layer holds it, IllegalArgumentException "ID '…' no encontrado" is thrown |
| ModalRegistry.ModalManager.ShowModal | src/main/java/app/system/ModalManager.java:54-63 | an id some layer already holds (null included) is refused with IllegalArgumentException naming it, and nothing is scheduled; otherwise exactly one insert is appended to the event queue |
| ModalRegistry.ModalManager.ShowModalWithOption | src/main/java/app/system/ModalManager.java:47-49 | showModal without an id passes null as the id: refused when a layer already holds the null id, scheduled otherwise |
| ModalRegistry.ModalManager.ShowModalWithDefault | src/main/java/app/system/ModalManager.java:40-42 | showModal without an option schedules the default option object itself, with the null id |
| ModalRegistry.ModalManager.GetModalContainer | src/main/java/app/system/ModalManager.java:143-168 | an owner with no window fails with the null-owner error and changes nothing; otherwise the window's layer is returned, recorded empty the first time, and no recorded layer is replaced |
| ModalRegistry.ModalManager.CreateOption | src/main/java/app/system/ModalManager.java:99-101 | createOption returns a fresh copy of the current default option |
| ModalRegistry.ModalManager.SetDefaultOption | src/main/java/app/system/ModalManager.java:85-87 | the default option is replaced and nothing else changes |
| ModalRegistry.ModalManager.RunInsert | src/main/java/app/system/ModalManager.java:59-62 | a pending insert resolves the owner's window and layer, copies the option when it is the default object, and adds the container under the id; no recorded layer is replaced |
| ModalRegistry.ModalManager.OptionFor | src/main/java/app/system/ModalManager.java:60 | the option passed is copied exactly when it is the registry's default object, and used as it is otherwise |
| ModalRegistry.ModalManager.AddToLayer | src/main/java/app/system/ModalManager.java:61 | the container is added to the window's layer and the registry records it as hosted |
| ModalRegistry.ModalManager.CloseModal | src/main/java/app/system/ModalManager.java:68-70 | closeModal(id) throws "ID '…' no encontrado" when no layer holds the id, and otherwise closes it in a layer that holds it, leaving every other layer unchanged and every hosted container other than the one that layer held under the id exactly as it was |
| ModalRegistry.ModalManager.CloseAllModal | src/main/java/app/system/ModalManager.java:75-77 | closeAllModal runs every window layer's closeAllModal. When none re-enters or throws, every layer ends empty, and every container that was showing animated keeps its closing animator running and stays valid. A re-entry or a NullPointerException is traced to a showing container without animation, or to an animated one without an animator |
| ModalRegistry.ModalManager.CloseAllInLayer | src/main/java/app/system/ModalManager.java:76 | closing all in one layer gives that layer's closeAllModal outcome and leaves every other layer untouched |
| ModalRegistry.ModalManager.CloseInLayer | src/main/java/app/system/ModalManager.java:69 | closing an id in one layer changes only that layer and its containers: every other layer is untouched, and every hosted container other than the one held under the id keeps its state |
| ModalRegistry.ModalManager.Dispatch | src/main/java/app/component/ModalContainer.java:96 | a container's effect is carried out: nothing for none, NullPointerException for a missing animator, and the registry's closeModal(id) for removeModal's call; only the container closed through the registry can change, every other hosted container keeps its state |
| ModalRegistry.ModalManager.AnimationEnd | src/main/java/app/component/ModalContainer.java:66-72 | when a container's animation ends, its effect is dispatched to the registry, whose layer closes the id with the outcome its closeModal states; apart from the ending container and the one closed through the registry, every hosted container keeps its state |
| ModalRegistry.ModalManager.ContainerClose | src/main/java/app/component/ModalContainer.java:83-92 | a close from the content (its controller, the escape key or a press outside) runs the container's closeModal and dispatches its effect, and the registry's layer closes the id with the outcome its closeModal states; apart from that container and the one closed through the registry, every hosted container keeps its state |
| ModalScenarios.DisabledCloseByIdNeverFinishes | src/main/java/app/component/ModalContainer.java:83-97 | with animation off, closing a container by id re-enters the registry at every depth, and the container is never removed |
| ModalScenarios.AnimatedCloseByIdFailsAtEnd | src/main/java/app/system/ModalManager.java:238-248 | an animated close by id removes the id at once, so the close at the end of the animation throws the not-found error |
| ModalScenarios.AnimatedCloseAllFailsAtEnd | src/main/java/app/system/ModalManager.java:250-255 | closeAllModal with every showing container animated finishes and empties every layer at once, so the end of a closing animation calls closeModal(id) for an id no layer holds and throws the not-found error |
| ModalScenarios.AnimatedCloseFromContentCompletes | src/main/java/app/component/ModalContainer.java:66-72 | an animated close from the content leaves the registry alone until the animation ends, and then removes the container |
| ModalScenarios.DuplicateIdsBothScheduled | src/main/java/app/system/ModalManager.java:54-63 | two shows with the same id before the event thread runs both pass the duplicate check and are both scheduled |
| ModalScenarios.DuplicateIdsBothInserted | src/main/java/app/system/ModalManager.java:228-236 | both inserts then run: the id names the second container, and the first stays showing beneath it |
| ModalScenarios.CloseKeepsOtherModals | src/main/java/app/system/ModalManager.java:238-248 | closing one id through the registry leaves the container held under any other id, in the same window or another, exactly as it was |
| Validation.ToStringDeterminesError | src/main/java/app/exception/ValidationException.java:91-93 | an error's `field: message` text determines the error when the field holds no colon |
| Validation.ValidationError.ToString | src/main/java/app/exception/ValidationException.java:90-93 | the text is the field, then ": ", then the message |
| Validation.BuildMessage | src/main/java/app/exception/ValidationException.java:55-68 | buildMessage gives "Error de validación" for no errors, `Campo 'f': m` for one, and otherwise the header and one line per error in order |
| Validation.ManyErrorsListsEach | src/main/java/app/exception/ValidationException.java:55-68 | with two or more errors, every error's line appears in the message, at the position its order gives |
| Validation.FromMessage | src/main/java/app/exception/ValidationException.java:16-20 | the message-only exception keeps the message as given and holds the one error ("general", message); that message is not the one buildMessage would give the error |
| Validation.ForField | src/main/java/app/exception/ValidationException.java:22-26 | the field exception holds the one error given, and its message is the one buildMessage gives that error |
| Validation.FromErrors | src/main/java/app/exception/ValidationException.java:28-31 | the list exception's message is the one buildMessage builds from the list, it holds the list it was given, and it has errors exactly when the list is not empty |
| Validation.RequiredField | src/main/java/app/exception/ValidationException.java:105-107 | requiredField holds the one "Este campo es obligatorio" error for the field, with the matching message |
| Validation.InvalidFormat | src/main/java/app/exception/ValidationException.java:109-114 | invalidFormat holds one error for the field that names the expected format |
| Validation.InvalidLengthNamesBounds | src/main/java/app/exception/ValidationException.java:116-121 | the length error names its bounds: two length errors are equal only when their bounds are |
| Validation.InvalidLength | src/main/java/app/exception/ValidationException.java:116-121 | invalidLength holds one error for the field whose message names both bounds, "Debe tener entre <min> y <max> caracteres", with the message buildMessage gives it |
| Validation.ThrowIfInvalid | src/main/java/app/util/validator/ValidationResult.java:76-80 | throwIfInvalid throws exactly when the result did not pass, carrying the result's errors and the message built from them |
| Validation.Valid | src/main/java/app/util/validator/ValidationResult.java:26-28 | valid() passes with no errors, so throwIfInvalid throws nothing |
| Validation.Invalid | src/main/java/app/util/validator/ValidationResult.java:37-41 | invalid(field, message) fails with exactly that error, and throwIfInvalid throws the field exception for it |
| Validation.InvalidWith | src/main/java/app/util/validator/ValidationResult.java:49-51 | invalid(errors) fails with exactly that list, even an empty one, and throwIfInvalid throws the list exception for it |
| Validation.ValidationException.ErrorCount | src/main/java/app/exception/ValidationException.java:47-53 | getErrorCount is zero exactly when hasErrors is false |
| Validation.BulletsListEach | src/main/java/app/view/modals/ClienteModal.java:345-347 | every error's bullet line appears in the list, in order |
| Validation.OneBulletPerError | src/main/java/app/view/modals/ClienteModal.java:345-347 | when no message holds a bullet, the list holds exactly one bullet per error |
| Validators.And | src/main/java/app/util/validator/Validator.java:14-22 | `and` passes exactly when both validators pass; when the first fails its result is returned unchanged, with none of the second's errors, and when it passes the second's result is returned |
| Validators.AndAssociative | src/main/java/app/util/validator/Validator.java:14-22 | `(a and b) and c` and `a and (b and c)` give the same result on every value |
| Patterns.IsCedula | src/main/java/app/util/validator/ValidadorVenezolano.java:19-26 | a full match of the cédula pattern has eight to ten chars, V, E, v or e first and a digit last |
| Patterns.IsTelefono | src/main/java/app/util/validator/ValidadorVenezolano.java:19-26 | a full match of the telephone pattern has eleven or twelve chars, 0 first and a digit last |
| Patterns.IsNombre | src/main/java/app/util/validator/ValidadorVenezolano.java:19-26 | a full match of the name pattern is not empty and holds no digit |
| Patterns.FullMatch | src/main/java/app/util/validator/ValidadorVenezolano.java:19-26 | none of the three patterns matches the empty text |
| Validators.RuleResult | src/main/java/app/util/validator/ValidatorBuilder.java:37-132 | one rule's check gives no error when it passes and exactly one error, under the builder's field, when it fails |
| Validators.RuleFailsExactly | src/main/java/app/util/validator/ValidatorBuilder.java:37-132 | notNull fails exactly on null; notEmpty on null or a blank text; matches, minLength and maxLength pass null, and the length rules fail exactly on a too-short or too-long text; custom fails exactly when its predicate does |
| Validators.CheckErrorsEmptyIff | src/main/java/app/util/validator/ValidatorBuilder.java:143-148 | a check adds no error exactly when it passes |
| Validators.NotEmptyPasses | src/main/java/app/util/validator/ValidatorBuilder.java:52-60 | notEmpty passes on a present text that is not blank |
| Validators.MinLengthPasses | src/main/java/app/util/validator/ValidatorBuilder.java:85-96 | minLength(n) passes on a present text of at least n chars |
| Validators.MaxLengthPasses | src/main/java/app/util/validator/ValidatorBuilder.java:104-115 | maxLength(n) passes on a present text of at most n chars |
| Validators.MatchesPasses | src/main/java/app/util/validator/ValidatorBuilder.java:69-77 | matches passes on a present text that matches the pattern |
| Validators.NotEmptyFailsOnBlank | src/main/java/app/util/validator/ValidatorBuilder.java:52-60 | notEmpty fails on a blank text with "Este campo no puede estar vacío" |
| Validators.MinLengthFailsOnShort | src/main/java/app/util/validator/ValidatorBuilder.java:85-96 | minLength(n) fails on a shorter text with the message naming n |
| Validators.MatchesFailsOnMismatch | src/main/java/app/util/validator/ValidatorBuilder.java:69-77 | matches fails on a non-matching text with its own message |
| Validators.NoErrorsIffAllPass | src/main/java/app/util/validator/ValidatorBuilder.java:139-154 | the built validator collects no error exactly when every rule passes |
| Validators.RunRules | src/main/java/app/util/validator/ValidatorBuilder.java:139-154 | the built validator reports the errors of the failing rules, in rule order, and is valid exactly when there are none |
| Validators.RunRulesValidIff | src/main/java/app/util/validator/ValidatorBuilder.java:139-154 | the built validator's result is valid exactly when every rule passes |
| Validators.ErrorsNameTheField | src/main/java/app/util/validator/ValidatorBuilder.java:139-154 | every error the built validator reports is under the builder's field |
| Validators.OneErrorPerFailure | src/main/java/app/util/validator/ValidatorBuilder.java:139-154 | the built validator reports exactly as many errors as rules that fail; all rules run, none stops the others |
| Validators.ValidatorBuilder.ForField | src/main/java/app/util/validator/ValidatorBuilder.java:28-30 | forField returns a fresh builder for the field with no rules |
| Validators.ValidatorBuilder.NotNull | src/main/java/app/util/validator/ValidatorBuilder.java:37-45 | notNull appends its rule after the existing ones and returns the same builder |
| Validators.ValidatorBuilder.NotEmpty | src/main/java/app/util/validator/ValidatorBuilder.java:52-60 | notEmpty appends its rule and returns the same builder |
| Validators.ValidatorBuilder.Matches | src/main/java/app/util/validator/ValidatorBuilder.java:69-77 | matches appends its rule and returns the same builder |
| Validators.ValidatorBuilder.MinLength | src/main/java/app/util/validator/ValidatorBuilder.java:85-96 | minLength appends its rule and returns the same builder |
| Validators.ValidatorBuilder.MaxLength | src/main/java/app/util/validator/ValidatorBuilder.java:104-115 | maxLength appends its rule and returns the same builder |
| Validators.ValidatorBuilder.Custom | src/main/java/app/util/validator/ValidatorBuilder.java:124-132 | custom appends its rule and returns the same builder |
| Validators.ValidatorBuilder.Build | src/main/java/app/util/validator/ValidatorBuilder.java:139-154 | build returns a fresh validator that reads the builder itself, so rules added later also apply to it |
| Validators.BuiltValidator.Validate | src/main/java/app/util/validator/ValidatorBuilder.java:139-154 | validate runs every rule in order, collects the errors, and returns valid when there are none and invalid with the list otherwise |
| Validators.CheckAddedAfterBuildApplies | src/main/java/app/util/validator/ValidatorBuilder.java:139-154 | a rule added to the builder after build still applies to the validator built before it |
| Venezuela.CedulaValidator | src/main/java/app/util/validator/ValidadorVenezolano.java:46-52 | the cédula validator is a fresh builder for "Cédula" with notEmpty, then the cédula pattern |
| Venezuela.NombreValidator | src/main/java/app/util/validator/ValidadorVenezolano.java:77-85 | the name validator is a fresh builder for "Nombre" with notEmpty, minLength(3), maxLength(100) and the name pattern |
| Venezuela.TelefonoValidator | src/main/java/app/util/validator/ValidadorVenezolano.java:57-72 | the telephone validator passes null, a blank text and a full match of the telephone pattern, and rejects anything else with one error |
| Venezuela.NormalizarCedula | src/main/java/app/util/validator/ValidadorVenezolano.java:90-104 | normalising gives null exactly for null |
| Venezuela.NormalizedIsNormal | src/main/java/app/util/validator/ValidadorVenezolano.java:90-104 | a normalised cédula is trimmed, upper case, holds no space, and has a dash when it has more than one char |
| Venezuela.NormalIsFixed | src/main/java/app/util/validator/ValidadorVenezolano.java:90-104 | normalising a normal cédula leaves it as it is |
| Venezuela.NormalizarCedulaIdempotent | src/main/java/app/util/validator/ValidadorVenezolano.java:90-104 | normalising twice is normalising once |
| Venezuela.CedulaErrors | src/main/java/app/util/validator/ValidadorVenezolano.java:46-52 | the cédula validator's errors are notEmpty's followed by the pattern's |
| Venezuela.CedulaRulesPass | src/main/java/app/util/validator/ValidadorVenezolano.java:46-52 | the cédula validator passes exactly on a present text matching the cédula pattern |
| Venezuela.ValidarYNormalizarCedula | src/main/java/app/util/validator/ValidadorVenezolano.java:126-135 | the method normalises, validates the normalised text, and returns it or throws the validator's errors |
| Venezuela.CedulaAcceptedIff | src/main/java/app/util/validator/ValidadorVenezolano.java:126-135 | a cédula is accepted exactly when it is present and its normal form matches the pattern, and then the normal form is returned |
| Venezuela.CedulaAcceptedIsCanonical | src/main/java/app/util/validator/ValidadorVenezolano.java:126-135 | an accepted cédula is returned as an upper-case V or E, a dash and seven or eight digits |
| Venezuela.CedulaShapesAccepted | src/main/java/app/util/validator/ValidadorVenezolano.java:19-20 | every text of the documented shape (V, E, v or e, an optional dash, seven or eight digits) is accepted and returned as the upper-case letter, a dash and the digits |
| Venezuela.NullCedulaOneError | src/main/java/app/util/validator/ValidadorVenezolano.java:126-135 | a null cédula throws only notEmpty's error |
| Venezuela.BlankCedulaTwoErrors | src/main/java/app/util/validator/ValidadorVenezolano.java:46-52 | a blank cédula throws two errors: notEmpty's, then the format error |
| Venezuela.NormalizarTelefono | src/main/java/app/util/validator/ValidadorVenezolano.java:109-121 | normalising gives null exactly for null or a blank text |
| Venezuela.NormalizedTelefonoNotBlank | src/main/java/app/util/validator/ValidadorVenezolano.java:109-121 | a telephone that is not blank normalises to a text that is not blank |
| Venezuela.TelefonoShapeNormalizes | src/main/java/app/util/validator/ValidadorVenezolano.java:109-121 | a zero, an area code, a dash, a whitespace char or nothing, then seven digits normalises to zero, code, dash, digits |
| Venezuela.ValidarYNormalizarTelefono | src/main/java/app/util/validator/ValidadorVenezolano.java:140-153 | null or blank returns null; otherwise the normalised text is returned when it matches, and the one format error is thrown when it does not |
| Venezuela.TelefonoAcceptedIff | src/main/java/app/util/validator/ValidadorVenezolano.java:140-153 | a telephone is accepted exactly when it is null, blank, or its normal form matches the pattern |
| Venezuela.TelefonoAcceptedIsCanonical | src/main/java/app/util/validator/ValidadorVenezolano.java:140-153 | a telephone accepted as text is returned as zero, an area code, a dash and seven digits |
| Venezuela.TelefonoAcceptedShape | src/main/java/app/util/validator/ValidadorVenezolano.java:140-153 | an accepted telephone text is returned as null exactly when it is blank, and in the canonical form otherwise |
| Venezuela.DashedTelefonoMatches | src/main/java/app/util/validator/ValidadorVenezolano.java:22-23 | zero, an area code, a dash and seven digits matches the telephone pattern |
| Venezuela.TelefonoShapesAccepted | src/main/java/app/util/validator/ValidadorVenezolano.java:22-23 | every text of the documented telephone shape is accepted and returned in the dashed form |
| Venezuela.NombreErrors | src/main/java/app/util/validator/ValidadorVenezolano.java:77-85 | the name validator's errors are those of its four checks, in order |
| Venezuela.NombreRulesPass | src/main/java/app/util/validator/ValidadorVenezolano.java:77-85 | the name validator passes exactly on a present, non-blank text of 3 to 100 chars that matches the name pattern |
| Venezuela.ValidarNombre | src/main/java/app/util/validator/ValidadorVenezolano.java:158-165 | validarNombre throws exactly the name validator's errors, and nothing when there are none |
| Venezuela.NombreAcceptedIff | src/main/java/app/util/validator/ValidadorVenezolano.java:158-165 | a name is accepted exactly when it is present, not blank, 3 to 100 chars long and matches the name pattern |
| Venezuela.EmptyNombreChecks | src/main/java/app/util/validator/ValidadorVenezolano.java:77-85 | an empty name collects three errors: not empty, too short, letters only |
| Venezuela.EmptyNombreThreeErrors | src/main/java/app/util/validator/ValidadorVenezolano.java:158-165 | validarNombre on an empty name throws those three errors |
| Clientes.TipoCabello.Ordinal | src/main/java/app/model/TipoCabello.java:3-7 | each constant's ordinal is its position among the values |
| Clientes.ValuesListEachOnce | src/main/java/app/model/TipoCabello.java:3-7 | values() lists four constants, each exactly once |
| Clientes.LabelsDistinct | src/main/java/app/model/TipoCabello.java:4-18 | toString is injective: no two constants share a label |
| Clientes.TipoCabello.Label | src/main/java/app/model/TipoCabello.java:4-18 | a label is capitalised and ends in a lower-case letter |
| Clientes.TipoCabello.Name | src/main/java/app/model/TipoCabello.java:3-7 | a name is upper-case letters and underscores only |
| Clientes.ValueOf | src/main/java/app/model/TipoCabello.java:3-7 | valueOf returns only a constant with the given name |
| Clientes.NameRoundTrip | src/main/java/app/model/TipoCabello.java:3-7 | valueOf(name()) gives the constant back |
| Clientes.LabelIsNotAName | src/main/java/app/model/TipoCabello.java:4-18 | valueOf rejects every label, so toString's text cannot be read back with valueOf |
| Clientes.BirthdayIgnoresYear | src/main/java/app/model/Cliente.java:78-82 | the birthday check ignores the year of both dates |
| Clientes.NoBirthdayNeverToday | src/main/java/app/model/Cliente.java:78-82 | a client without a birthday never has a birthday today |
| Clientes.BirthdayIffSameDateThisYear | src/main/java/app/model/Cliente.java:78-82 | the birthday is today exactly when it is today's date with its year changed |
| Clientes.Cliente.Empty | src/main/java/app/model/Cliente.java:22-23 | `new Cliente()` has id 0 and every other field null |
| Clientes.Cliente.constructor | src/main/java/app/model/Cliente.java:25-38 | the full constructor stores each argument in its own field |
| Clientes.Cliente.SetId | src/main/java/app/model/Cliente.java:42 | setId changes the id and no other field |
| Clientes.Cliente.SetCedula | src/main/java/app/model/Cliente.java:45 | setCedula changes the cédula and no other field |
| Clientes.Cliente.SetNombreCompleto | src/main/java/app/model/Cliente.java:48 | setNombreCompleto changes the name and no other field |
| Clientes.Cliente.SetTelefono | src/main/java/app/model/Cliente.java:51 | setTelefono changes the telephone and no other field |
| Clientes.Cliente.SetDireccion | src/main/java/app/model/Cliente.java:54 | setDireccion changes the address and no other field |
| Clientes.Cliente.SetTipoCabello | src/main/java/app/model/Cliente.java:57 | setTipoCabello changes the hair type and no other field |
| Clientes.Cliente.SetTipoExtensiones | src/main/java/app/model/Cliente.java:60 | setTipoExtensiones changes the extensions and no other field |
| Clientes.Cliente.SetFechaCumpleanos | src/main/java/app/model/Cliente.java:63 | the setter changes the birthday and no other field |
| Clientes.Cliente.SetFechaUltimoTinte | src/main/java/app/model/Cliente.java:66 | the setter changes the last dye date and no other field |
| Clientes.Cliente.SetFechaUltimoQuimico | src/main/java/app/model/Cliente.java:69 | the setter changes the last chemical date and no other field |
| Clientes.Cliente.SetFechaUltimaKeratina | src/main/java/app/model/Cliente.java:72 | the setter changes the last keratin date and no other field |
| Clientes.Cliente.SetFechaUltimoMantenimiento | src/main/java/app/model/Cliente.java:75 | the setter changes the last maintenance date and no other field |
| Clientes.Cliente.EsCumpleanosHoy | src/main/java/app/model/Cliente.java:78-82 | esCumpleanosHoy is false without a birthday, and otherwise true exactly when month and day match today's |
| Toasts.FormatMessage | src/main/java/app/util/ToastNotification.java:148-154 | a null or blank title gives the message itself; any other title gives the HTML body with the title in bold, a line break, then the message ("null" for a null one), which is longer than both |
| Toasts.FormattedDeterminesParts | src/main/java/app/util/ToastNotification.java:152-153 | the formatted text determines its title (when the title holds no '<') and its message |
| Toasts.Show | src/main/java/app/util/ToastNotification.java:104-114 | a toast appears exactly when the owner is displayable, with the formatted text and the given type |
| Toasts.DefaultTitle | src/main/java/app/util/ToastNotification.java:30-68 | each one-argument overload supplies a non-empty title that opens with a visible char, so it is never blank |
| Toasts.DefaultTitleShown | src/main/java/app/util/ToastNotification.java:30-73 | the one-argument overloads show their default title (Éxito, Información, Advertencia, Error) in bold above the message |
| Toasts.ShowDefault | src/main/java/app/util/ToastNotification.java:30-68 | a one-argument overload shows a toast exactly when the owner is displayable, of the type asked for, and always with a text, even for a null message |
| Toasts.ValidationToast | src/main/java/app/util/ToastNotification.java:78-99 | one error is shown as an error toast titled "Error de Validación" with its message; any other count, zero included, as the HTML list; nothing when the owner is not displayable |
| Toasts.ShowValidationErrors | src/main/java/app/util/ToastNotification.java:78-99 | the StringBuilder loop builds exactly the toast that ValidationToast describes |
| Toasts.NoErrorsHeaderOnly | src/main/java/app/util/ToastNotification.java:81-97 | an exception without errors still shows the list toast, holding only its header |
| Toasts.ListToastItemsInOrder | src/main/java/app/util/ToastNotification.java:91-93 | every error's "• message<br>" item appears in the list toast, in order |
| Toasts.ListToastOneBulletPerError | src/main/java/app/util/ToastNotification.java:87-95 | when no message holds a bullet, the list toast holds exactly one bullet per error |
| ClientesTable.RowOf | src/main/java/app/view/ClientesView.java:164-171 | a row holds the client's id, cédula, name, telephone, hair type and extensions, in that order |
| ClientesTable.LowerKeepsTrimmable | src/main/java/app/view/ClientesView.java:156 | lower-casing keeps every char's trimmability |
| ClientesTable.SearchKey | src/main/java/app/view/ClientesView.java:156 | the search key is never longer than the query and neither opens nor ends with a blank |
| ClientesTable.RowMatches | src/main/java/app/view/ClientesView.java:160-162 | an empty key matches every client; a non-empty key throws NullPointerException exactly for a client without a name, and a client is rejected only when neither its lower-cased name nor its lower-cased cédula (when present) contains the key |
| ClientesTable.SearchKeyEmptyIffBlank | src/main/java/app/view/ClientesView.java:156-160 | the search key is empty exactly when the query is blank |
| ClientesTable.Filter | src/main/java/app/view/ClientesView.java:146-177 | the filter never gives more rows than there are cached clients |
| ClientesTable.FilterAppend | src/main/java/app/view/ClientesView.java:159-174 | filtering two lists one after the other is filtering the first, then the second unless the first threw |
| ClientesTable.FilterOne | src/main/java/app/view/ClientesView.java:160-171 | one client gives its row when it matches, nothing when it does not, and a NullPointerException for a missing name under a non-empty key |
| ClientesTable.FilterNpeIff | src/main/java/app/view/ClientesView.java:160-161 | the filter throws exactly when the key is not empty and some cached client has no name |
| ClientesTable.RowsFromMatches | src/main/java/app/view/ClientesView.java:159-173 | every row shown is the row of a cached client that matches |
| ClientesTable.MatchesHaveRows | src/main/java/app/view/ClientesView.java:159-173 | when the filter does not throw, every matching cached client has its row |
| ClientesTable.FilterPrefixStep | src/main/java/app/view/ClientesView.java:159-174 | one more client adds its row when it matches, nothing when it does not, or stops the filter |
| ClientesTable.FilterStopsAt | src/main/java/app/view/ClientesView.java:159-174 | once the filter has thrown, later clients change nothing |
| ClientesTable.AllRows | src/main/java/app/view/ClientesView.java:164-171 | the unfiltered rows are one row per client, in cache order |
| ClientesTable.EmptyKeyShowsAll | src/main/java/app/view/ClientesView.java:160 | an empty key shows every client and never throws |
| ClientesTable.BlankQueryShowsAll | src/main/java/app/view/ClientesView.java:156-160 | a blank query shows every client |
| ClientesTable.NpeKeepsEarlierRows | src/main/java/app/view/ClientesView.java:161 | the first client without a name ends the filter, keeping the rows of the clients before it |
| ClientesTable.FirstWithId | src/main/java/app/view/ClientesView.java:302-305 | the position found is the first client with the id, and there is none exactly when no client has it |
| ClientesTable.RowIdsFound | src/main/java/app/view/ClientesView.java:299-305 | the id of every row shown is found in the cache |
| ClientesTable.DataOf | src/main/java/app/view/ClientesView.java:36 | the cache read as data: one record per cached client, in order |
| ClientesTable.ClientesView.constructor | src/main/java/app/view/ClientesView.java:40-46 | the view loads the list at once |
| ClientesTable.ClientesView.FilterData | src/main/java/app/view/ClientesView.java:146-177 | the table holds exactly the rows the filter gives for the lower-cased, trimmed query, and the method says whether it threw |
| ClientesTable.ClientesView.Matches | src/main/java/app/view/ClientesView.java:160-162 | the condition tested on a client whose name can be lower-cased is the one the filter uses |
| ClientesTable.ClientesView.LoadData | src/main/java/app/view/ClientesView.java:126-141 | a read list goes to the cache and all of it to the table; a read error asks for an error toast and empties the cache, leaving the table |
| ClientesTable.ClientesView.ShowAll | src/main/java/app/view/ClientesView.java:130-131 | a read list is cached and the table shows one row per client, in order |
| ClientesTable.ClientesView.FindById | src/main/java/app/view/ClientesView.java:302-305 | the lookup returns the first cached client with the id, or nothing |
| ClientesTable.ClientesView.EditSelected | src/main/java/app/view/ClientesView.java:291-315 | without a selection it asks for one; a selected id still cached gives that client to edit; an id no longer cached asks for an error toast and reloads |
| ClienteEntry.DateFromText | src/main/java/app/view/modals/ClienteModal.java:363-373 | a date field gives no date for a blank text or one that does not parse, and otherwise the parsed trimmed text |
| ClienteEntry.DateIgnoresSurroundingBlanks | src/main/java/app/view/modals/ClienteModal.java:364 | blanks around a date text make no difference |
| ClienteEntry.DateRoundTrip | src/main/java/app/view/forms/ClienteForm.java:191-207 | a date written with the formatter reads back as itself, and no date reads back as no date |
| ClienteEntry.WithDates | src/main/java/app/view/modals/ClienteModal.java:328-332 | the five dates come from the five date fields and nothing else changes |
| ClienteModals.BuildCliente | src/main/java/app/view/modals/ClienteModal.java:300-336 | the build always keeps the id, and when it throws, the address, hair type, extensions and the five dates are still the ones the client had |
| ClienteModals.BuildAcceptedIff | src/main/java/app/view/modals/ClienteModal.java:300-336 | a build succeeds exactly when the cédula, the trimmed name and the telephone are each accepted |
| ClienteModals.BuiltClienteShape | src/main/java/app/view/modals/ClienteModal.java:300-336 | a successful build stores a canonical cédula, a valid trimmed name, null for a blank telephone or a canonical one, the trimmed texts, the selection and the dates, and keeps the id |
| ClienteModals.BuiltCopiesTexts | src/main/java/app/view/modals/ClienteModal.java:318-332 | a successful build keeps the id and stores the trimmed address and extensions, the selected hair type and the dates |
| ClienteModals.BuiltValidatedFields | src/main/java/app/view/modals/ClienteModal.java:305-316 | a successful build stores a canonical cédula, a valid name and a telephone that is null exactly when blank and canonical otherwise |
| ClienteModals.BuiltFromOutcomes | src/main/java/app/view/modals/ClienteModal.java:305-316 | a successful build passed all three validations and stores what they returned |
| ClienteModals.CedulaRejectedWritesNothing | src/main/java/app/view/modals/ClienteModal.java:303-307 | a rejected cédula leaves the client untouched and throws the cédula errors |
| ClienteModals.NombreRejectedKeepsCedula | src/main/java/app/view/modals/ClienteModal.java:306-312 | a rejected name leaves the new cédula written and nothing else changed |
| ClienteModals.TelefonoRejectedKeepsEarlierFields | src/main/java/app/view/modals/ClienteModal.java:306-316 | a rejected telephone leaves the new cédula and name written, and throws the one format error |
| ClienteModals.ValidationDialogText | src/main/java/app/view/modals/ClienteModal.java:341-347 | the dialog text opens with the "Por favor corrija los siguientes errores" header, and is the header alone exactly when there are no errors |
| ClienteModals.DialogLinesInOrder | src/main/java/app/view/modals/ClienteModal.java:341-347 | every error's line appears in the dialog text, in order, after the header |
| ClienteModals.DialogOneBulletPerError | src/main/java/app/view/modals/ClienteModal.java:342-347 | when no message holds a bullet, the dialog text holds exactly one bullet per error |
| ClienteModals.ClienteModal.constructor | src/main/java/app/view/modals/ClienteModal.java:65-71 | a new modal holds the client to edit (or none) and whether it has a callback, with the save button enabled and nothing done yet |
| ClienteModals.ClienteModal.BuildAndValidateCliente | src/main/java/app/view/modals/ClienteModal.java:300-336 | the edited client, or a fresh one, ends up holding exactly what BuildCliente describes, and the exception thrown is the one it describes |
| ClienteModals.ClienteModal.ValidationMessage | src/main/java/app/view/modals/ClienteModal.java:341-355 | the loop builds the header and one "• message" line per error |
| ClienteModals.SaveErrorMessage | src/main/java/app/view/modals/ClienteModal.java:276-290 | the error dialog for a duplicate ends with the cédula, for another client error with its message, and for an unexpected error with its message ("null" for none) |
| ClienteModals.ClienteModal.Persist | src/main/java/app/view/modals/ClienteModal.java:249-294 | a thrown validation shows its warning dialog and nothing else; otherwise create (new) or update (edit) is called; a stored client reaches the callback, if any, with the generated key as its id after a create, and closes the modal; any other answer shows its error dialog; the button ends enabled |
| ClienteModals.AfterSave | src/main/java/app/repository/ClienteRepositorySQLite.java:82-86 | after a stored create the client carries the generated key as its id when the driver returned one; otherwise, and after an update, it is the client as sent, and only the id can ever differ |
| ClienteModals.ClienteModal.GuardarCliente | src/main/java/app/view/modals/ClienteModal.java:243-295 | guardarCliente makes the build BuildCliente describes, writes it into the edited client, then does what Persist states |
| ClienteForms.DateText | src/main/java/app/view/forms/ClienteForm.java:191-197 | setLocalDate shows no date as the empty text and a date as its formatted text |
| ClienteForms.LoadedFields | src/main/java/app/view/forms/ClienteForm.java:110-144 | loading no client clears every field; loading a client shows each of its five texts (the empty text for null), its hair type, and each of its five dates as setLocalDate writes it |
| ClienteForms.FormError | src/main/java/app/view/forms/ClienteForm.java:152-153 | getData refuses exactly when the cédula or the name is blank; a blank cédula gives "La cédula es obligatoria." whatever the name, otherwise a blank name gives "El nombre es obligatorio." |
| ClienteForms.FormData | src/main/java/app/view/forms/ClienteForm.java:155-168 | getData keeps the id, copies the selected hair type, and stores every text field as present |
| ClienteForms.BlankFormNeedsCedula | src/main/java/app/view/forms/ClienteForm.java:127-152 | a cleared form is refused for its cédula |
| ClienteForms.FormAcceptedIff | src/main/java/app/view/forms/ClienteForm.java:152-153 | getData accepts exactly when neither cédula nor name is blank, and names the cédula first |
| ClienteForms.FormDataTrimmed | src/main/java/app/view/forms/ClienteForm.java:155-168 | every text getData stores is present and trimmed, and the id is kept |
| ClienteForms.TextReadsBack | src/main/java/app/view/forms/ClienteForm.java:113-118 | a trimmed text shown in a widget reads back as itself; a null one as the empty text |
| ClienteForms.DateReadsBack | src/main/java/app/view/forms/ClienteForm.java:191-207 | a date shown by setLocalDate reads back through getLocalDate as itself |
| ClienteForms.LoadThenGet | src/main/java/app/view/forms/ClienteForm.java:110-171 | loading a client and reading the form back gives the client again, with each null text turned into the empty text |
| ClienteForms.LoadedClientChecks | src/main/java/app/view/forms/ClienteForm.java:110-153 | a loaded client passes getData's checks exactly when its cédula and name are present and not blank |
| ClienteForms.LoadThenGetUnchanged | src/main/java/app/view/forms/ClienteForm.java:110-171 | a loaded client without null texts reads back unchanged |
| ClienteForms.GetLoadGetStable | src/main/java/app/view/forms/ClienteForm.java:110-171 | reading the form, loading the result and reading again gives the same client |
| ClienteForms.ClienteForm.constructor | src/main/java/app/view/forms/ClienteForm.java:33-102 | a new form has nothing loaded, empty texts, the first hair type selected and the cédula editable |
| ClienteForms.ClienteForm.LoadData | src/main/java/app/view/forms/ClienteForm.java:110-144 | every widget is written from the client, or cleared when there is none; the cédula is editable only for a new client |
| ClienteForms.ClienteForm.GetData | src/main/java/app/view/forms/ClienteForm.java:150-171 | a blank cédula or name throws its message and writes nothing; otherwise the loaded client, or a fresh one, holds what FormData describes |

## Left out

- Painting, fonts, icons, the MigLayout constraints and all other Swing rendering: the model keeps only the state that decides behaviour (what shows, what is bound, which alpha is painted).
- Animator timing and easing: one tick or the end of the animation is an explicit call, with the progress as a parameter.
- The ModalOption getters: they only read fields, which the model reads directly.
- `ModalOption.backgroundOpacity` is a `real`, not a 32-bit float; float rounding is not modelled.
- The HashMap iteration order of `closeAllModal`: the walk follows an unspecified order, and the model proves only what holds for every order.
- `ModalManager.getInstance` and `ValidadorVenezolano.getInstance` (lazy singletons): the model passes the one instance explicitly.
- The timing of `SwingUtilities.invokeLater`: the queue order is modelled, but not when the event thread runs.
- The search debounce timer (`scheduleSearch`), `showClienteModal`, `deleteSelected` and `showToastSafe` in the list view. These are dialogs, timers and repository deletes; the toasts they ask for are recorded as requests.
- `ClienteModal.installComponent`, `loadData` and `setDateField`: building and filling the widgets. The modal's widget texts are the `Fields` parameter.
- The repository, SQLite and its exceptions: each create or update answer is the `RepoOutcome` parameter, one value per catch clause of `guardarCliente`; a stored create carries the generated key the driver returned, if any, which create writes into the client's id before the callback sees it.
- `LocalDate.now()`, `LocalDate.parse` and `LocalDate.format`: today's date, the parser and the formatter are parameters.
- `JFormattedTextField.setValue(null)` is modelled as clearing the field's text.
- Logging (SLF4J), the BaseException error codes and timestamps: not observable by the rest of the core.
- `JavaText.ToUpper` and `JavaText.ToLower` map ASCII letters only. Java's locale-dependent Unicode case mapping (for example of accented letters in a search query) is not modelled.
- `Patterns.IsNombre`: the regular expression's `\s` is taken as the six ASCII whitespace chars, as Java's default flags give it.
- `ModalComponents.ModalContainer.StartAnimator` and `ModalComponents.ModalContainer.CloseModal`: FlatLaf's `Animator` is not part of this model. `start()` on an animator that is already running is taken to restart it without error. The outcome of a close during the opening animation rests on that, in `ClosedAs`, `ContainerClose`, both `CloseAllModal` walks and the scenarios.
- `ModalLayout.CalculateX`, `ModalLayout.CalculateY` and `ModalLayout.LayoutFrame`: Java's 32-bit `int` arithmetic is not modelled. The subtractions and halvings at ModalContainer.java:190, 193, 202 and 205, and the frame sums in ModalManager.java:199-210, are exact integers here, so an overflow on huge sizes is not captured.
- `Validators.RuleResult`: minLength and maxLength compare `|s|`, the number of chars in the model. Java's `String.length()` counts UTF-16 code units, so a text of 51 astral-plane characters has Java length 102 and fails maxLength(100) in Java, but passes here (ValidatorBuilder.java:85-115).
- `ModalComponents.ModalContainer.AnimatorTick`: the progress `animate` is a Java `float`; the model computes on `real`, without float rounding.
- `ModalOptions.ModalOption.Copy`: colours are never null in the model. In Java, `setBackgroundColor(null)` is accepted (ModalOption.java:109-112), and a later `copy()` then throws NullPointerException at `getRGB` (ModalOption.java:154).
- `ClienteModals.ClienteModal.Persist` and `ClienteModals.ClienteModal.GuardarCliente`: a successful save always records the success notification and the close. In Java, a callback or `closeModal` that throws after the save is caught by the last clause, which shows "Error inesperado" although the client was stored (ClienteModal.java:264-290). With animation disabled, that close re-enters the registry without end (see Findings), which Java ends with an uncaught StackOverflowError.

## Findings

| source | as written | input that shows it | evidently intended | confidence | as-written member | corrected member |
|---|---|---|---|---|---|---|
| src/main/java/app/component/ModalContainer.java:83-97 | with animation disabled, `closeModal` calls `removeModal` while `showing` is still true; `removeModal` calls `ModalManager.closeModal(id)`, whose layer calls the same container's `closeModal` again before removing anything, so the nested calls never reach the removal | a modal shown under an id with `setAnimationEnabled(false)`, then `ModalManager.closeModal(id)` | the container stops showing before `removeModal`, so the nested close finds it closed and the layer removes it once | not executed | ModalScenarios.DisabledCloseByIdNeverFinishes | ModalRegistry.ModalContainerLayer.CloseModalHidingFirst |

The as-written behaviour is kept in `ModalComponents.ModalContainer.CloseModal` and `ModalRegistry.ModalContainerLayer.CloseModal`; the registry model keeps it too, and reports such a close as `Reentered(id)`. The corrected close is `ModalComponents.ModalContainer.CloseModalHidingFirst`, and the layer's `CloseModalHidingFirst` proves that every close of a known id then finishes.
