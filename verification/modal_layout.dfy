/**
 * The three layout managers of the modal engine: the one that places a
 * modal panel inside its full-window container, the one that lays the
 * modal layer over the content pane, and the one that stretches every
 * modal container over the modal layer.
 */
module ModalLayout {
  import opened Wrappers
  import opened ModalOptions

  datatype Size = Size(width: int, height: int)

  datatype Bounds = Bounds(x: int, y: int, width: int, height: int)

  datatype Insets = Insets(top: int, left: int, bottom: int, right: int)

  /** Java's `a / 2` on int: rounds toward zero, so -3 / 2 == -1 where Dafny's -3 / 2 == -2. */
  function HalfTowardZero(a: int): (h: int)
    ensures a >= 0 ==> 0 <= a - 2 * h <= 1
    ensures a < 0 ==> -1 <= a - 2 * h <= 0
  {
    if a >= 0 then a / 2 else -((-a) / 2)
  }

  lemma HalfTowardZeroDiffersFromFloor()
    ensures HalfTowardZero(-3) == -1 && -3 / 2 == -2
  {
  }

  /**
   * calculateX: Left keeps `margin` to the left edge, Right keeps `margin`
   * to the right edge, anything else (Center and the vertical-only values)
   * centres, the odd pixel going right when the panel fits and left when
   * it overflows.
   */
  function CalculateX(horizontal: Position, margin: int, parentWidth: int, width: int): (x: int)
    ensures horizontal == Left ==> x == margin
    ensures horizontal == Right ==> parentWidth - (x + width) == margin
    ensures horizontal != Left && horizontal != Right && parentWidth >= width ==>
      0 <= (parentWidth - (x + width)) - x <= 1
    ensures horizontal != Left && horizontal != Right && parentWidth < width ==>
      -1 <= (parentWidth - (x + width)) - x <= 0
  {
    match horizontal
    case Left => margin
    case Right => parentWidth - width - margin
    case _ => HalfTowardZero(parentWidth - width)
  }

  /** calculateY: the same rule on the vertical axis, with Top and Bottom for the edges. */
  function CalculateY(vertical: Position, margin: int, parentHeight: int, height: int): (y: int)
    ensures vertical == Top ==> y == margin
    ensures vertical == Bottom ==> parentHeight - (y + height) == margin
    ensures vertical != Top && vertical != Bottom && parentHeight >= height ==>
      0 <= (parentHeight - (y + height)) - y <= 1
    ensures vertical != Top && vertical != Bottom && parentHeight < height ==>
      -1 <= (parentHeight - (y + height)) - y <= 0
  {
    match vertical
    case Top => margin
    case Bottom => parentHeight - height - margin
    case _ => HalfTowardZero(parentHeight - height)
  }

  /** The axes are not interchangeable: Left on the vertical axis and Top on the horizontal axis both centre. */
  lemma AxisValuesDoNotCross()
    ensures CalculateY(Left, 20, 600, 200) == CalculateY(Center, 20, 600, 200) == 200
    ensures CalculateX(Top, 20, 800, 300) == CalculateX(Center, 20, 800, 300) == 250
  {
  }

  /**
   * ModalLayout.layoutContainer: only the first child is placed, at its
   * preferred size; a container without children is left alone (None).
   */
  function LayoutModal(option: Settings, parent: Size, children: seq<Size>): (r: Option<Bounds>)
    ensures r.None? <==> children == []
    ensures r.Some? ==>
      r.value.width == children[0].width && r.value.height == children[0].height &&
      r.value.x == CalculateX(option.horizontalPosition, option.margin, parent.width, children[0].width) &&
      r.value.y == CalculateY(option.verticalPosition, option.margin, parent.height, children[0].height)
  {
    if children == [] then None
    else
      var size := children[0];
      Some(Bounds(CalculateX(option.horizontalPosition, option.margin, parent.width, size.width),
                  CalculateY(option.verticalPosition, option.margin, parent.height, size.height),
                  size.width, size.height))
  }

  /** With the default options an 800x600 window centres a 300x200 panel; Left/Top and Right/Bottom sit 20 pixels from the edges. */
  lemma DefaultPlacementExample()
    ensures LayoutModal(Defaults, Size(800, 600), [Size(300, 200)]) == Some(Bounds(250, 200, 300, 200))
    ensures LayoutModal(Defaults.(horizontalPosition := Left, verticalPosition := Top),
                        Size(800, 600), [Size(300, 200)]) == Some(Bounds(20, 20, 300, 200))
    ensures LayoutModal(Defaults.(horizontalPosition := Right, verticalPosition := Bottom),
                        Size(800, 600), [Size(300, 200)]) == Some(Bounds(480, 380, 300, 200))
  {
  }

  datatype FrameBounds = FrameBounds(modalLayer: Bounds, contentPane: Bounds)

  /**
   * FrameModalLayout.layoutContainer: the modal layer and the content pane
   * get the content pane's own y and height and the root pane's width less
   * its horizontal insets; the layer starts at the left inset, the content
   * pane at x = 0.
   */
  function LayoutFrame(rootWidth: int, insets: Insets, contentPane: Bounds): (r: FrameBounds)
    ensures r.modalLayer.y == r.contentPane.y == contentPane.y
    ensures r.modalLayer.height == r.contentPane.height == contentPane.height
    ensures r.modalLayer.width == r.contentPane.width
    ensures insets.left + r.modalLayer.width + insets.right == rootWidth
    ensures r.modalLayer.x == insets.left && r.contentPane.x == 0
  {
    var width := rootWidth - (insets.left + insets.right);
    FrameBounds(Bounds(insets.left, contentPane.y, width, contentPane.height),
                Bounds(0, contentPane.y, width, contentPane.height))
  }

  /** The area inside a parent's insets. */
  function InsideInsets(parent: Size, insets: Insets): (b: Bounds)
    ensures b.x == insets.left && b.y == insets.top
    ensures insets.left + b.width + insets.right == parent.width
    ensures insets.top + b.height + insets.bottom == parent.height
  {
    Bounds(insets.left, insets.top,
           parent.width - (insets.left + insets.right),
           parent.height - (insets.top + insets.bottom))
  }

  /**
   * ModalContainerLayout.layoutContainer: every child that is a modal
   * container is stretched over the area inside the parent's insets; other
   * children keep their bounds.
   */
  method LayoutModalLayer(parent: Size, insets: Insets, isModalContainer: seq<bool>, bounds: array<Bounds>)
    requires bounds.Length == |isModalContainer|
    modifies bounds
    ensures forall i :: 0 <= i < bounds.Length ==>
      bounds[i] == (if isModalContainer[i] then InsideInsets(parent, insets) else old(bounds[i]))
  {
    var inner := InsideInsets(parent, insets);
    var i := 0;
    while i < bounds.Length
      invariant 0 <= i <= bounds.Length
      invariant forall j :: 0 <= j < i ==>
        bounds[j] == (if isModalContainer[j] then inner else old(bounds[j]))
      invariant forall j :: i <= j < bounds.Length ==> bounds[j] == old(bounds[j])
    {
      if isModalContainer[i] {
        bounds[i] := inner;
      }
      i := i + 1;
    }
  }
}
