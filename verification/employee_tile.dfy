/** `EmployeeTile`: one employee card. The attendance figure is coloured by
    threshold, and clicking the card opens a details modal whose query is
    only sent while the modal is open. */
module EmployeeTile {
  import opened Common
  import opened Text

  datatype AttendanceColor = Green | Yellow | Red

  /** `getAttendanceColorClass`. */
  function ColorOf(attendance: real): (c: AttendanceColor)
    ensures c == Green <==> attendance >= 90.0
    ensures c == Yellow <==> 75.0 <= attendance < 90.0
    ensures c == Red <==> attendance < 75.0
  {
    if attendance >= 90.0 then Green else if attendance >= 75.0 then Yellow else Red
  }

  /** How good a colour is: red below yellow below green. */
  function Rank(c: AttendanceColor): nat {
    match c
    case Red => 0
    case Yellow => 1
    case Green => 2
  }

  /** Higher attendance never gets a worse colour. */
  lemma ColorMonotone(a: real, b: real)
    requires a <= b
    ensures Rank(ColorOf(a)) <= Rank(ColorOf(b))
  {
  }

  /** `showDetailsModal` of the tile. */
  datatype TileState = TileState(showDetailsModal: bool)

  const Initial: TileState := TileState(false)

  /** The id the details query is sent with; `skip: !showDetailsModal`. */
  function DetailsQuery(e: Employee, st: TileState): (id: Option<int>)
    ensures id.Some? <==> st.showDetailsModal
    ensures id.Some? ==> id.value == e.id
  {
    if st.showDetailsModal then Some(e.id) else None
  }

  /** A click on the card body opens the modal; the footer with its links
      stops the click from reaching the card. */
  function CardClick(st: TileState, onFooter: bool): (r: TileState)
    ensures onFooter ==> r == st
    ensures !onFooter ==> r.showDetailsModal
  {
    if onFooter then st else TileState(true)
  }

  /** Close, the modal's own `onClose`, and the Edit link all close it. */
  function CloseDetails(st: TileState): (r: TileState)
    ensures !r.showDetailsModal
  {
    TileState(false)
  }

  /** A freshly rendered tile sends no query; clicking the card fetches its
      own employee, and closing stops the fetch again. */
  lemma DetailsFetchOnlyWhileOpen(e: Employee)
    ensures DetailsQuery(e, Initial).None?
    ensures DetailsQuery(e, CardClick(Initial, false)) == Some(e.id)
    ensures DetailsQuery(e, CardClick(Initial, true)).None?
    ensures DetailsQuery(e, CloseDetails(CardClick(Initial, false))).None?
  {
  }

  /** The modal's badges: one per comma-separated piece, trimmed, none with a comma. */
  lemma ModalBadges(e: Employee)
    ensures |SubjectBadges(e.subjects)| == Occurrences(e.subjects, ',') + 1
    ensures forall i :: 0 <= i < |SubjectBadges(e.subjects)| ==> ',' !in SubjectBadges(e.subjects)[i]
  {
    SubjectBadgesArePieces(e.subjects);
  }
}
