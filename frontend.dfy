/// src/frontend/mod.rs: the state the curve solver's window keeps between
/// messages, and the two conversions between the vertical and horizontal
/// reference points. Only the fields these operations touch are modelled;
/// the obstacle-type enum is not part of this model and is carried as a
/// tag.
module Frontend {
  import opened Results
  import opened DataTypes
  import opened Vertical

  /// The reference points of the horizontal form in this revision.
  datatype HorizontalStationDefinition = PC | PI | PT

  /// The kind of an obstacle, as the form's toggle leaves it.
  datatype ObstacleType = ObstacleType(tag: nat)

  /// The obstacle fields of the vertical page.
  datatype VerticalPage = VerticalPage(
    inputObstacleStation: string,
    inputObstacleElevation: string,
    inputObstacleType: ObstacleType,
    obstacles: seq<(Station, ObstacleType)>)

  /// The pin fields of the horizontal page.
  datatype HorizontalPage = HorizontalPage(inputPinStation: string, pins: seq<Station>)

  /// Which form is shown, with its data.
  datatype Page = VerticalForm(vertical: VerticalPage) | HorizontalForm(horizontal: HorizontalPage)

  /// What `Default` gives each page: empty text and empty lists.
  const DefaultVertical := VerticalPage("", "", ObstacleType(0), [])
  const DefaultHorizontal := HorizontalPage("", [])

  /// The page `next_page` switches to: the other form, its data reset.
  function NextPageOf(page: Page): Page
  {
    match page
    case VerticalForm(_) => HorizontalForm(DefaultHorizontal)
    case HorizontalForm(_) => VerticalForm(DefaultVertical)
  }

  /// What `add_to_list` does to the page: on the vertical form the typed
  /// obstacle is appended when its station and elevation parse; on the
  /// horizontal form the typed pin at elevation 0, when its station parses.
  function AddedTo(page: Page): Result<Page, ParseError>
  {
    match page
    case VerticalForm(v) =>
      var value :- StationValue(v.inputObstacleStation);
      var elevation :- CoerceElevation(v.inputObstacleElevation);
      Ok(VerticalForm(v.(obstacles := v.obstacles + [(Station(value, elevation), v.inputObstacleType)])))
    case HorizontalForm(hp) =>
      var value :- StationValue(hp.inputPinStation);
      Ok(HorizontalForm(hp.(pins := hp.pins + [Station(value, 0.0)])))
  }

  /// What the `RemoveObstacle` message does: `pop` on the obstacle list;
  /// the horizontal form ignores the message.
  function RemovedFrom(page: Page): Page
  {
    match page
    case VerticalForm(v) =>
      if v.obstacles == [] then page
      else VerticalForm(v.(obstacles := v.obstacles[..|v.obstacles| - 1]))
    case HorizontalForm(_) => page
  }

  /// The window's state, which the message handlers change in place.
  class CurveSolver {
    var page: Page

    /// `new` opens on the vertical form.
    constructor ()
      ensures page == VerticalForm(DefaultVertical)
    {
      page := VerticalForm(DefaultVertical);
    }

    /// `next_page`.
    method NextPage()
      modifies this
      ensures page == NextPageOf(old(page))
    {
      match page
      case VerticalForm(_) =>
        page := HorizontalForm(DefaultHorizontal);
      case HorizontalForm(_) =>
        page := VerticalForm(DefaultVertical);
    }

    /// `add_to_list`: appends the typed obstacle or pin, or fails with the
    /// parse error and leaves the page as it was.
    method AddToList() returns (r: Result<(), ParseError>)
      modifies this
      ensures r.Ok? <==> AddedTo(old(page)).Ok?
      ensures r.Ok? ==> page == AddedTo(old(page)).value
      ensures r.Err? ==> r.error == AddedTo(old(page)).error && page == old(page)
    {
      r := Ok(());
      match page
      case VerticalForm(v) =>
        var value := CoerceStationValue(v.inputObstacleStation);
        if value.Err? {
          return Err(value.error);
        }
        var elevation := CoerceElevation(v.inputObstacleElevation);
        if elevation.Err? {
          return Err(elevation.error);
        }
        var station := Station(value.value, elevation.value);
        page := VerticalForm(v.(obstacles := v.obstacles + [(station, v.inputObstacleType)]));
      case HorizontalForm(hp) =>
        var value := CoerceStationValue(hp.inputPinStation);
        if value.Err? {
          return Err(value.error);
        }
        page := HorizontalForm(hp.(pins := hp.pins + [Station(value.value, 0.0)]));
    }

    /// The `RemoveObstacle` message.
    method RemoveObstacle()
      modifies this
      ensures page == RemovedFrom(old(page))
    {
      if page.VerticalForm? && page.vertical.obstacles != [] {
        var v := page.vertical;
        page := VerticalForm(v.(obstacles := v.obstacles[..|v.obstacles| - 1]));
      }
    }
  }

  /// Switching twice comes back to the same form, its data reset.
  lemma NextPageTwice(page: Page)
    ensures NextPageOf(page) != page
    ensures NextPageOf(page).VerticalForm? == page.HorizontalForm?
    ensures NextPageOf(NextPageOf(page)).VerticalForm? == page.VerticalForm?
    ensures NextPageOf(NextPageOf(page)) == (if page.VerticalForm? then VerticalForm(DefaultVertical) else HorizontalForm(DefaultHorizontal))
  {
  }

  /// A successful add on the vertical form appends exactly the typed
  /// obstacle at the end and changes nothing else; it fails exactly when
  /// the station or the elevation does not parse.
  lemma AddAppendsObstacle(v: VerticalPage)
    ensures AddedTo(VerticalForm(v)).Ok? <==> StationValue(v.inputObstacleStation).Ok? && CoerceElevation(v.inputObstacleElevation).Ok?
    ensures AddedTo(VerticalForm(v)).Ok? ==>
      var after := AddedTo(VerticalForm(v)).value;
      && after.VerticalForm?
      && |after.vertical.obstacles| == |v.obstacles| + 1
      && after.vertical.obstacles[..|v.obstacles|] == v.obstacles
      && after.vertical.obstacles[|v.obstacles|] == (Station(StationValue(v.inputObstacleStation).value, CoerceElevation(v.inputObstacleElevation).value), v.inputObstacleType)
      && after.vertical.(obstacles := v.obstacles) == v
  {
    if AddedTo(VerticalForm(v)).Ok? {
      var after := AddedTo(VerticalForm(v)).value;
      assert after.vertical.obstacles[..|v.obstacles|] == v.obstacles;
    }
  }

  /// A successful add on the horizontal form appends exactly the typed pin
  /// at elevation 0 and changes nothing else; it fails, with the station
  /// error, exactly when the station does not parse.
  lemma AddAppendsPin(hp: HorizontalPage)
    ensures AddedTo(HorizontalForm(hp)).Ok? <==> StationValue(hp.inputPinStation).Ok?
    ensures AddedTo(HorizontalForm(hp)).Err? ==> AddedTo(HorizontalForm(hp)).error == StationValue(hp.inputPinStation).error
    ensures AddedTo(HorizontalForm(hp)).Ok? ==>
      var after := AddedTo(HorizontalForm(hp)).value;
      && after.HorizontalForm?
      && |after.horizontal.pins| == |hp.pins| + 1
      && after.horizontal.pins[..|hp.pins|] == hp.pins
      && after.horizontal.pins[|hp.pins|] == Station(StationValue(hp.inputPinStation).value, 0.0)
      && after.horizontal.(pins := hp.pins) == hp
  {
    if AddedTo(HorizontalForm(hp)).Ok? {
      var after := AddedTo(HorizontalForm(hp)).value;
      assert after.horizontal.pins[..|hp.pins|] == hp.pins;
    }
  }

  /// A station error is reported before the elevation is looked at.
  lemma AddReportsStationFirst(v: VerticalPage)
    requires StationValue(v.inputObstacleStation).Err?
    ensures AddedTo(VerticalForm(v)) == Err(StationValue(v.inputObstacleStation).error)
  {
  }

  /// Adding and then removing an obstacle restores the page.
  lemma RemoveUndoesAdd(v: VerticalPage)
    requires AddedTo(VerticalForm(v)).Ok?
    ensures RemovedFrom(AddedTo(VerticalForm(v)).value) == VerticalForm(v)
  {
    var after := AddedTo(VerticalForm(v)).value;
    assert after.vertical.obstacles[..|v.obstacles|] == v.obstacles;
  }

  /// Removing drops exactly the last obstacle, and does nothing on an
  /// empty list.
  lemma RemoveDropsLast(v: VerticalPage)
    ensures v.obstacles == [] ==> RemovedFrom(VerticalForm(v)) == VerticalForm(v)
    ensures v.obstacles != [] ==>
      var after := RemovedFrom(VerticalForm(v));
      && after.VerticalForm?
      && after.vertical.obstacles + [v.obstacles[|v.obstacles| - 1]] == v.obstacles
      && after.vertical.(obstacles := v.obstacles) == v
  {
  }

  /// `From<VerticalDefinition> for HorizontalStationDefinition`.
  function ToHorizontal(d: VerticalDefinition): (r: HorizontalStationDefinition)
    ensures (d == PVC <==> r == PC) && (d == PVI <==> r == PI) && (d == PVT <==> r == PT)
  {
    match d
    case PVC => PC
    case PVI => PI
    case PVT => PT
  }

  /// `From<HorizontalStationDefinition> for VerticalDefinition`.
  function ToVertical(d: HorizontalStationDefinition): (r: VerticalDefinition)
    ensures (d == PC <==> r == PVC) && (d == PI <==> r == PVI) && (d == PT <==> r == PVT)
  {
    match d
    case PC => PVC
    case PI => PVI
    case PT => PVT
  }

  /// The two conversions undo each other.
  lemma ConversionsRoundTrip(v: VerticalDefinition, h: HorizontalStationDefinition)
    ensures ToVertical(ToHorizontal(v)) == v
    ensures ToHorizontal(ToVertical(h)) == h
  {
  }

  /// The conversion respects the toggle order: stepping the vertical
  /// point and converting is converting and stepping the horizontal one,
  /// the order PC, PI, PT.
  lemma ConversionFollowsToggle(v: VerticalDefinition)
    ensures ToHorizontal(v.Next()) == (match ToHorizontal(v) case PC => PI case PI => PT case PT => PC)
  {
  }
}
