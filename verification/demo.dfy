/** The interactive demo section (src/scenes/DemoSection.js): the drop zone
    that accepts a video, and the mock detection that lists locations and
    pins them on the globe.

    Processing is paced by two timers in the source; here they are the
    separate events `Processed` and `Rearmed`. The pin geometry (latitude
    and longitude turned into a point on the sphere) is left out. */
module Demo {
  datatype Location = Location(name: string, lat: real, lon: real)

  /** The candidate locations, in the order detection reports them. */
  const Locations: seq<Location> := [
    Location("Tokyo, Japan", 35.6762, 139.6503),
    Location("Paris, France", 48.8566, 2.3522),
    Location("New York, USA", 40.7128, -74.0060),
    Location("Sydney, Australia", -33.8688, 151.2093)]

  /** What the drop zone says. */
  datatype Status = Prompt | Processing | Processed | DropAnother

  /** A list entry fading in after `delay` seconds. */
  datatype ListItem = ListItem(name: string, delay: real)

  /** A pin on the globe, scaling in after `delay` seconds. */
  datatype Pin = Pin(name: string, lat: real, lon: real, delay: real)

  datatype DemoState = DemoState(
    dragOver: bool,
    status: Status,
    detected: seq<Location>,
    listed: seq<ListItem>,
    pins: seq<Pin>,
    ocrVisible: bool)

  const Fresh := DemoState(false, Prompt, [], [], [], false)

  /** `files[0].type.startsWith('video/')`, after checking there is a file. */
  predicate AcceptsDrop(types: seq<string>) {
    |types| > 0 && "video/" <= types[0]
  }

  function OnDragOver(s: DemoState): (r: DemoState)
    ensures r.dragOver && r.(dragOver := s.dragOver) == s
  {
    s.(dragOver := true)
  }

  function OnDragLeave(s: DemoState): (r: DemoState)
    ensures !r.dragOver && r.(dragOver := s.dragOver) == s
  {
    s.(dragOver := false)
  }

  /** `drop`: the highlight goes, and only a video starts processing; any
      other drop leaves everything else as it was. */
  function OnDrop(s: DemoState, types: seq<string>): (r: DemoState)
    ensures !r.dragOver
    ensures AcceptsDrop(types) ==> r.status == Processing
    ensures !AcceptsDrop(types) ==> r == s.(dragOver := false)
    ensures r.detected == s.detected && r.pins == s.pins && r.listed == s.listed
  {
    if AcceptsDrop(types) then s.(dragOver := false, status := Processing)
    else s.(dragOver := false)
  }

  /** A drop whose first file is not a video, or an empty drop, never starts processing. */
  lemma OnlyVideosProcess(s: DemoState, types: seq<string>)
    requires s.status != Processing
    ensures OnDrop(s, types).status == Processing <==> |types| > 0 && |types[0]| >= 6 && types[0][..6] == "video/"
  {
  }

  /** `Math.floor(Math.random() * 3) + 2` for a draw in [0, 1). */
  function DetectCount(draw: real): (n: nat)
    requires 0.0 <= draw < 1.0
    ensures 2 <= n <= 4
  {
    (draw * 3.0).Floor + 2
  }

  /** Every count from two to four can come out. */
  lemma EveryCountOccurs()
    ensures DetectCount(0.0) == 2 && DetectCount(0.5) == 3 && DetectCount(0.9) == 4
  {
  }

  /** The first timer: the first `DetectCount(draw)` locations are listed
      afresh and pinned, entry `i` of each after `i * 0.2` s. The location
      list is emptied first; the pins of earlier videos stay on the globe. */
  function OnProcessed(s: DemoState, draw: real): (r: DemoState)
    requires 0.0 <= draw < 1.0
    ensures r.status == Processed && r.ocrVisible && r.dragOver == s.dragOver
    ensures 2 <= |r.detected| <= |Locations| && r.detected == Locations[..|r.detected|]
    ensures |r.listed| == |r.detected|
    ensures forall i :: 0 <= i < |r.listed| ==> r.listed[i] == ListItem(r.detected[i].name, i as real * 0.2)
    ensures |r.pins| == |s.pins| + |r.detected| && r.pins[..|s.pins|] == s.pins
    ensures forall i :: 0 <= i < |r.detected| ==>
              r.pins[|s.pins| + i] == Pin(r.detected[i].name, r.detected[i].lat, r.detected[i].lon, i as real * 0.2)
  {
    var found := Locations[..DetectCount(draw)];
    var items := seq(|found|, i requires 0 <= i < |found| => ListItem(found[i].name, i as real * 0.2));
    var added := seq(|found|, i requires 0 <= i < |found| => Pin(found[i].name, found[i].lat, found[i].lon, i as real * 0.2));
    DemoState(s.dragOver, Processed, found, items, s.pins + added, true)
  }

  /** The second timer, three seconds later. */
  function OnRearmed(s: DemoState): (r: DemoState)
    ensures r == s.(status := DropAnother)
  {
    s.(status := DropAnother)
  }

  /** Each processed video lists only its own locations and adds one pin per
      listed location; after two videos the globe holds the earlier pins,
      then the first video's, then the second's. */
  lemma PinsAccumulate(s: DemoState, draw1: real, draw2: real)
    requires 0.0 <= draw1 < 1.0 && 0.0 <= draw2 < 1.0
    ensures var a := OnProcessed(s, draw1);
      var b := OnProcessed(a, draw2);
      && |b.pins| == |s.pins| + |a.detected| + |b.detected| && b.pins[..|s.pins|] == s.pins
      && (forall i :: 0 <= i < |a.detected| ==> b.pins[|s.pins| + i].name == Locations[i].name)
      && (forall i :: 0 <= i < |b.detected| ==> b.pins[|a.pins| + i].name == Locations[i].name)
  {
    var a := OnProcessed(s, draw1);
    var b := OnProcessed(a, draw2);
    assert b.pins[..|s.pins|] == b.pins[..|a.pins|][..|s.pins|];
    forall i | 0 <= i < |a.detected| ensures b.pins[|s.pins| + i].name == Locations[i].name {
      assert b.pins[|s.pins| + i] == b.pins[..|a.pins|][|s.pins| + i];
    }
  }
}
