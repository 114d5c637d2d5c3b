/** The motion/state record that the line parser produces and the block
    queue stores (gc_block), and the cartesian point it carries. Floats are
    modelled as reals. */
module Gcode {

  /** Feed rate ceiling in mm/min; also the feed of a default block. */
  const MAX_FEED: int := 800

  /** A cartesian point in millimetres; the default point is the origin. */
  datatype Point = Point(x: real, y: real)

  /** One queued command: target point, feed rate and pen-lift flag. */
  datatype Block = Block(pt: Point, feed: int, lift: bool)

  /** The default-constructed block: the member initialisers give the
      maximum feed and a lifted pen, and the point is the origin. */
  function DefaultBlock(): (b: Block)
    ensures b.feed == MAX_FEED == 800
    ensures b.lift
    ensures b.pt == Point(0.0, 0.0)
  {
    Block(Point(0.0, 0.0), MAX_FEED, true)
  }

  /** The three-argument constructor: sets the point and the lift flag and
      keeps the member initialiser of the feed. */
  function BlockAt(x: real, y: real, lift: bool): (b: Block)
    ensures b == DefaultBlock().(pt := Point(x, y), lift := lift)
    ensures b.feed == DefaultBlock().feed
  {
    Block(Point(x, y), MAX_FEED, lift)
  }
}
