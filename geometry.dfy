/** Points, displacements and sizes of the compositor's geometry. Coordinates are
    unbounded integers: the 16-bit fields of X11 events fit in them unchanged. */
module Geometry {

  datatype Point = Point(x: int, y: int)
  datatype Displacement = Displacement(dx: int, dy: int)
  datatype Size = Size(width: int, height: int)
  datatype Rectangle = Rectangle(topLeft: Point, size: Size)

  const NoDisplacement := Displacement(0, 0)

  function Plus(p: Point, d: Displacement): Point {
    Point(p.x + d.dx, p.y + d.dy)
  }

  function Minus(p: Point, d: Displacement): Point {
    Point(p.x - d.dx, p.y - d.dy)
  }

  function AsDisplacement(p: Point): Displacement {
    Displacement(p.x, p.y)
  }
}
