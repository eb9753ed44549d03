/**
 * The particle picker's canvas (ParticlePickerCanvas.java): centring the
 * visible source rectangle on a particle, and the keyboard handler that
 * nudges the active particle or toggles the shape check boxes.
 * Java `int` arithmetic is modelled without 32-bit overflow.
 */
module PickerCanvas {
  import opened Wrappers

  /** java.awt.Rectangle: corner and size. */
  datatype Rect = Rect(x: int, y: int, width: int, height: int)

  /** Java's `n / 2`, which truncates toward zero. */
  function Half(n: int): (q: int)
    ensures n >= 0 ==> 2 * q <= n <= 2 * q + 1
    ensures n < 0 ==> 2 * q - 1 <= n <= 2 * q
  {
    if n >= 0 then n / 2 else -((-n) / 2)
  }

  /** Rectangle.contains(Rectangle): no negative size anywhere, a non-empty
      inner rectangle, and the inner one within the outer one's bounds. */
  predicate Contains(outer: Rect, inner: Rect) {
    && outer.width >= 0 && outer.height >= 0 && inner.width >= 0 && inner.height >= 0
    && inner.x >= outer.x && inner.y >= outer.y
    && inner.width > 0 && inner.height > 0
    && inner.x + inner.width <= outer.x + outer.width
    && inner.y + inner.height <= outer.y + outer.height
  }

  /** The corner along one axis: centred on the particle, pushed right of
      0, then pushed left of the image's far edge. */
  function Corner(p: int, size: int, extent: int): (c: int)
    ensures size <= extent ==> 0 <= c <= extent - size
    ensures size > extent ==> c == extent - size
    ensures 0 <= p - Half(size) <= extent - size ==> c == p - Half(size)
    ensures 1 <= size <= extent && 0 <= p < extent ==> c <= p < c + size
  {
    var c0 := p - Half(size);
    var c1 := if c0 < 0 then 0 else c0;
    if c1 + size > extent then extent - size else c1
  }

  datatype View = View(source: Rect, repainted: bool)

  /** moveTo: the window of the same size around the particle; it replaces
      the current source rectangle only when the current one does not
      already contain it. */
  function MoveTo(source: Rect, px: int, py: int, imageWidth: int, imageHeight: int): (v: View)
    ensures v.source.width == source.width && v.source.height == source.height
    ensures source.width <= imageWidth ==> 0 <= v.source.x <= imageWidth - source.width
    ensures source.height <= imageHeight ==> 0 <= v.source.y <= imageHeight - source.height
    ensures v.repainted <==> v.source != source || !Contains(source, source)
    ensures !v.repainted ==> v.source == source
    ensures v.repainted ==> v.source == Rect(Corner(px, source.width, imageWidth), Corner(py, source.height, imageHeight), source.width, source.height)
    ensures v.repainted <==> !Contains(source, Rect(Corner(px, source.width, imageWidth), Corner(py, source.height, imageHeight), source.width, source.height))
  {
    var r := Rect(Corner(px, source.width, imageWidth), Corner(py, source.height, imageHeight), source.width, source.height);
    if !Contains(source, r) then View(r, true) else View(source, false)
  }

  /** After moveTo, a particle inside the image lies inside the visible
      rectangle whenever the rectangle fits in the image. */
  lemma ParticleVisibleAfterMove(source: Rect, px: int, py: int, imageWidth: int, imageHeight: int)
    requires 1 <= source.width <= imageWidth && 1 <= source.height <= imageHeight
    requires 0 <= px < imageWidth && 0 <= py < imageHeight
    ensures var s := MoveTo(source, px, py, imageWidth, imageHeight).source;
      s.x <= px < s.x + s.width && s.y <= py < s.y + s.height
  {
    var r := Rect(Corner(px, source.width, imageWidth), Corner(py, source.height, imageHeight), source.width, source.height);
    if Contains(source, r) {
      assert r.x <= px < r.x + r.width;
      assert r.y <= py < r.y + r.height;
    }
  }

  /** Moving to the same particle twice changes nothing the second time. */
  lemma MoveToSettles(source: Rect, px: int, py: int, imageWidth: int, imageHeight: int)
    requires source.width >= 1 && source.height >= 1
    ensures var v := MoveTo(source, px, py, imageWidth, imageHeight);
      MoveTo(v.source, px, py, imageWidth, imageHeight) == View(v.source, false)
  {
  }

  // ---------------------------------------------------------------------
  // Keyboard
  // ---------------------------------------------------------------------

  /** java.awt.event.KeyEvent codes. */
  const VK_SPACE: int := 32
  const VK_LEFT: int := 37
  const VK_UP: int := 38
  const VK_RIGHT: int := 39
  const VK_DOWN: int := 40

  datatype Particle = Particle(x: int, y: int)

  /** What the handler reads and writes: the active particle, the two shape
      check boxes and the toggle. */
  datatype Canvas = Canvas(active: Option<Particle>, circle: bool, rectangle: bool, toggle: bool)

  datatype KeyOutcome = KeyOutcome(canvas: Canvas, repainted: bool)

  /** moveActiveParticle: the active particle, if any, moves to (x, y). */
  function MoveActiveParticle(c: Canvas, x: int, y: int): (r: Canvas)
    ensures c.active.None? ==> r == c
    ensures c.active.Some? ==> r == c.(active := Some(Particle(x, y)))
  {
    match c.active
    case None => c
    case Some(_) => c.(active := Some(Particle(x, y)))
  }

  function KeyPressed(c: Canvas, code: int): (r: KeyOutcome)
    ensures c.active.None? ==> r == KeyOutcome(c, false)
    ensures r.repainted <==> c.active.Some? && code in {VK_UP, VK_DOWN, VK_LEFT, VK_RIGHT, VK_SPACE}
    ensures !r.repainted ==> r.canvas == c
    ensures c.active.Some? && code in {VK_UP, VK_DOWN, VK_LEFT, VK_RIGHT} ==>
      && r.canvas.active.Some?
      && r.canvas == c.(active := r.canvas.active)
      && Distance(c.active.value, r.canvas.active.value) == 1
      && (code in {VK_UP, VK_DOWN} <==> r.canvas.active.value.x == c.active.value.x)
    ensures c.active.Some? && code == VK_UP ==>
      r.canvas.active == Some(Particle(c.active.value.x, c.active.value.y - 1))
    ensures c.active.Some? && code == VK_DOWN ==>
      r.canvas.active == Some(Particle(c.active.value.x, c.active.value.y + 1))
    ensures c.active.Some? && code == VK_LEFT ==>
      r.canvas.active == Some(Particle(c.active.value.x - 1, c.active.value.y))
    ensures c.active.Some? && code == VK_RIGHT ==>
      r.canvas.active == Some(Particle(c.active.value.x + 1, c.active.value.y))
    ensures c.active.Some? && code == VK_SPACE ==>
      r.canvas == c.(circle := c.toggle, rectangle := c.toggle, toggle := !c.toggle)
  {
    match c.active
    case None => KeyOutcome(c, false)
    case Some(p) =>
      var step := 1;
      if code == VK_UP then KeyOutcome(MoveActiveParticle(c, p.x, p.y - step), true)
      else if code == VK_DOWN then KeyOutcome(MoveActiveParticle(c, p.x, p.y + step), true)
      else if code == VK_LEFT then KeyOutcome(MoveActiveParticle(c, p.x - step, p.y), true)
      else if code == VK_RIGHT then KeyOutcome(MoveActiveParticle(c, p.x + step, p.y), true)
      else if code == VK_SPACE then
        KeyOutcome(c.(circle := c.toggle, rectangle := c.toggle, toggle := !c.toggle), true)
      else KeyOutcome(c, false)
  }

  /** Manhattan distance between two positions. */
  function Distance(a: Particle, b: Particle): nat {
    (if a.x <= b.x then b.x - a.x else a.x - b.x) + (if a.y <= b.y then b.y - a.y else a.y - b.y)
  }

  /** Opposite arrows undo each other. */
  lemma OppositeArrowsCancel(c: Canvas)
    ensures KeyPressed(KeyPressed(c, VK_LEFT).canvas, VK_RIGHT).canvas == c
    ensures KeyPressed(KeyPressed(c, VK_UP).canvas, VK_DOWN).canvas == c
  {
  }

  /** Two presses of space set the check boxes to opposite values and leave
      the toggle as it was. */
  lemma SpaceAlternates(c: Canvas)
    requires c.active.Some?
    ensures var once := KeyPressed(c, VK_SPACE).canvas;
      var twice := KeyPressed(once, VK_SPACE).canvas;
      && once.circle == once.rectangle == c.toggle
      && twice.circle == twice.rectangle == !c.toggle
      && twice.toggle == c.toggle
  {
  }
}
