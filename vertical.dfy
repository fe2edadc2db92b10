/// src/vertical/mod.rs: the reference point a vertical curve is given by,
/// and the raw text of the vertical curve form.
module Vertical {
  /// The point of vertical curvature, of intersection, or of tangency.
  datatype VerticalDefinition = PVI | PVC | PVT {
    /// The next choice in the form's toggle order.
    function Next(): VerticalDefinition
    {
      match this
      case PVC => PVI
      case PVI => PVT
      case PVT => PVC
    }
  }

  /// The text fields of the vertical curve form, as typed.
  datatype VerticalData = VerticalData(
    inputMethod: VerticalDefinition,
    inputStation: string,
    inputElevation: string,
    inputIncomingGrade: string,
    inputOutgoingGrade: string,
    inputLength: string,
    inputStationInterval: string)

  lemma NextOrder()
    ensures PVC.Next() == PVI && PVI.Next() == PVT && PVT.Next() == PVC
  {
  }

  /// The toggle visits all three choices and comes back.
  lemma NextCycle(d: VerticalDefinition)
    ensures d.Next() != d
    ensures d.Next().Next() != d
    ensures d.Next().Next().Next() == d
  {
  }

  /// No two choices toggle to the same one, so `Next` permutes them.
  lemma NextInjective(d: VerticalDefinition, e: VerticalDefinition)
    ensures d.Next() == e.Next() <==> d == e
  {
  }
}
