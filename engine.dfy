/** The viewer's mutable state and the operations that update it in place:
    start-up, the normaliser, fit-to-view, the OBJ loader, the pointer, wheel
    and touch handlers, reset, and the per-frame physics. */
module Engine {
  import opened Geometry
  import opened ObjLoader
  import Controls

  /** The twelve edges of the start-up cube. */
  const CubeEdges: seq<Edge> := [
    Edge(0, 1), Edge(1, 2), Edge(2, 3), Edge(3, 0),
    Edge(4, 5), Edge(5, 6), Edge(6, 7), Edge(7, 4),
    Edge(0, 4), Edge(1, 5), Edge(2, 6), Edge(3, 7)
  ]

  class Viewer {
    var width: real
    var height: real

    var vertices: seq<Vec3>
    var edges: seq<Edge>
    var radius: real

    var angle: Vec2
    var velocity: Vec2
    var distance: real
    var offset: Vec2
    var autoRotate: bool
    var autoRotateSpeed: real

    var isDragging: bool
    var isPanning: bool
    var lastMouse: Vec2
    var lastPan: Vec2
    var lastTouchDist: real

    /** The transform and input fields as one value. */
    ghost function Current(): Controls.View
      reads this
    {
      Controls.View(angle, velocity, distance, offset, autoRotate, autoRotateSpeed,
                    isDragging, isPanning, lastMouse, lastPan, lastTouchDist)
    }

    /** The class invariant, set up by the constructor and kept by every
        method: the camera stays inside the zoom range and the model is
        normalised to radius 1. */
    ghost predicate Valid()
      reads this
    {
      Controls.InZoomRange(distance) && radius == 1.0
    }

    /** Start-up: the initial transform and input state, the cube's edges,
        then its corners. */
    constructor(width: real, height: real)
      ensures this.width == width && this.height == height
      ensures vertices == CubeVertices && edges == CubeEdges
      ensures Current() == Controls.InitialView
      ensures Valid()
    {
      this.width, this.height := width, height;
      vertices, edges, radius := [], CubeEdges, 1.0;
      angle, velocity := Zero2, Zero2;
      distance, offset := Controls.InitialCamera, Zero2;
      autoRotate, autoRotateSpeed := true, 0.01;
      isDragging, isPanning := false, false;
      lastMouse, lastPan, lastTouchDist := Zero2, Zero2, 0.0;
      new;
      InitCube();
    }

    /** Installs the cube's corners and runs the normaliser over them, which
        leaves them as they are. */
    method InitCube()
      modifies this`vertices, this`radius
      requires Valid()
      ensures Valid()
      ensures vertices == CubeVertices && radius == 1.0
    {
      vertices := CubeVertices;
      NormalizeGeometry();
      CubeIsNormalized();
    }

    /** Re-centres the model on its bounding-box midpoint and scales its
        largest extent to 2; an empty model is left alone. */
    method NormalizeGeometry()
      modifies this`vertices, this`radius
      requires Valid()
      ensures Valid()
      ensures vertices == Normalized(old(vertices))
      ensures radius == (if |old(vertices)| == 0 then old(radius) else 1.0)
    {
      if |vertices| == 0 {
        return;
      }
      var box := BoundingBox(vertices);
      var center := Center(box);
      var size := Size(box);
      var scale := 2.0 / (if size == 0.0 then 1.0 else size);
      vertices := Affine(vertices, center, scale);
      radius := 1.0;
    }

    method FitToView()
      modifies this`distance, this`offset, this`angle
      requires Valid()
      ensures Valid()
      ensures Current() == Controls.FitToView(old(Current()), radius)
      ensures distance == Controls.InitialCamera
    {
      distance := Controls.Clamp(radius * 4.0);
      offset := Zero2;
      angle := Zero2;
    }

    /** Loads a tokenised OBJ file. Without any vertex line nothing changes;
        otherwise the parsed model replaces the current one, is normalised,
        and the view is fitted to it. The velocity is left as it was. */
    method ParseObj(lines: seq<ObjLine>)
      modifies this`vertices, this`edges, this`angle, this`radius, this`distance, this`offset
      requires Valid()
      ensures Valid()
      ensures |ParsedVertices(lines)| == 0 ==>
        vertices == old(vertices) && edges == old(edges) && radius == old(radius) && Current() == old(Current())
      ensures |ParsedVertices(lines)| > 0 ==>
        && vertices == Normalized(ParsedVertices(lines))
        && edges == ParsedEdges(lines)
        && Current() == Controls.FitToView(old(Current()), 1.0)
    {
      var newVertices, newEdges := ScanLines(lines);
      if |newVertices| > 0 {
        Install(newVertices, newEdges);
      }
    }

    /** The success branch of the loader. */
    method Install(newVertices: seq<Vec3>, newEdges: seq<Edge>)
      requires |newVertices| > 0
      modifies this`vertices, this`edges, this`angle, this`radius, this`distance, this`offset
      requires Valid()
      ensures Valid()
      ensures vertices == Normalized(newVertices) && edges == newEdges
      ensures Current() == Controls.FitToView(old(Current()), 1.0)
    {
      vertices := newVertices;
      edges := newEdges;
      angle := Zero2;
      NormalizeGeometry();
      FitToView();
    }

    method HandleStart(p: Vec2, rightClick: bool)
      modifies this`isPanning, this`lastPan, this`isDragging, this`lastMouse, this`velocity
      requires Valid()
      ensures Valid()
      ensures Current() == Controls.HandleStart(old(Current()), p, rightClick)
    {
      if rightClick {
        isPanning := true;
        lastPan := p;
      } else {
        isDragging := true;
        lastMouse := p;
        velocity := Zero2;
      }
    }

    method HandleMove(p: Vec2)
      modifies this`lastMouse, this`angle, this`velocity, this`lastPan, this`offset
      requires Valid()
      ensures Valid()
      ensures Current() == Controls.HandleMove(old(Current()), p)
    {
      if isDragging {
        var dx := p.x - lastMouse.x;
        var dy := p.y - lastMouse.y;
        lastMouse := p;
        angle := Vec2(angle.x + dy * Controls.DraggingSpeed, angle.y + dx * Controls.DraggingSpeed);
        velocity := Vec2(dy * Controls.DraggingSpeed, dx * Controls.DraggingSpeed);
      } else if isPanning {
        var dx := p.x - lastPan.x;
        var dy := p.y - lastPan.y;
        lastPan := p;
        offset := Vec2(offset.x + dx, offset.y + dy);
      }
    }

    method HandleEnd()
      modifies this`isDragging, this`isPanning, this`lastTouchDist
      requires Valid()
      ensures Valid()
      ensures Current() == Controls.HandleEnd(old(Current()))
    {
      isDragging := false;
      isPanning := false;
      lastTouchDist := 0.0;
    }

    method Wheel(deltaY: real)
      modifies this`distance
      requires Valid()
      ensures Valid()
      ensures Current() == Controls.Wheel(old(Current()), deltaY)
    {
      distance := distance + deltaY * Controls.ZoomSpeed;
      distance := Controls.Clamp(distance);
    }

    /** `pinchDist` is the distance between the two touch points, which the
        host computes. */
    method TouchStart(touches: seq<Vec2>, pinchDist: real)
      modifies this`isDragging, this`lastMouse, this`velocity, this`isPanning, this`lastPan, this`lastTouchDist
      requires Valid()
      ensures Valid()
      ensures Current() == Controls.TouchStart(old(Current()), touches, pinchDist)
    {
      if |touches| == 1 {
        HandleStart(touches[0], false);
      } else if |touches| == 2 {
        isPanning := true;
        lastPan := Midpoint(touches[0], touches[1]);
        lastTouchDist := pinchDist;
      }
    }

    method TouchMove(touches: seq<Vec2>, pinchDist: real)
      modifies this`lastMouse, this`angle, this`velocity, this`lastPan, this`offset, this`distance, this`lastTouchDist
      requires Valid()
      ensures Valid()
      ensures Current() == Controls.TouchMove(old(Current()), touches, pinchDist)
    {
      if |touches| == 1 && isDragging {
        HandleMove(touches[0]);
      } else if |touches| == 2 {
        var mid := Midpoint(touches[0], touches[1]);
        if isPanning {
          offset := Vec2(offset.x + (mid.x - lastPan.x), offset.y + (mid.y - lastPan.y));
          lastPan := mid;
        }
        if lastTouchDist > 0.0 {
          var delta := pinchDist - lastTouchDist;
          distance := distance - delta * Controls.PinchSpeed;
          distance := Controls.Clamp(distance);
        }
        lastTouchDist := pinchDist;
      }
    }

    method ResetView()
      modifies this`angle, this`velocity, this`offset, this`distance
      requires Valid()
      ensures Valid()
      ensures Current() == Controls.ResetView(old(Current()), radius)
    {
      angle := Zero2;
      velocity := Zero2;
      offset := Zero2;
      FitToView();
    }

    /** The physics part of one animation frame. */
    method Step()
      modifies this`angle, this`velocity
      requires Valid()
      ensures Valid()
      ensures Current() == Controls.PhysicsStep(old(Current()))
    {
      if !isDragging {
        angle := Vec2(angle.x + velocity.x, angle.y + velocity.y);
        if autoRotate {
          angle := Vec2(angle.x, angle.y + autoRotateSpeed);
        }
        velocity := Vec2(velocity.x * Controls.Friction, velocity.y * Controls.Friction);
      }
    }
  }
}
