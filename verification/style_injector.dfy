/** The marker-class service (`StyleInjectorService` in
    `src/content/services/style-injector.service.ts`): two mutually exclusive
    marker classes and the attribute a delayed timer writes after hiding. */
module StyleInjector {
  import opened Seqs
  import opened Dom

  const ApprovedClass: string := "clarity-approved"
  const HiddenClass: string := "clarity-hidden"
  const RemovedAttribute: string := "data-clarity-removed"

  /** The two marker classes. */
  const MarkerClasses: set<string> := {ApprovedClass, HiddenClass}

  /** Only the classes outside `MarkerClasses` and the attributes other than
      `RemovedAttribute` are compared: everything else is unchanged. */
  predicate SameApartFromMarkers(a: Node, b: Node) {
    && a.Element? && b.Element?
    && a.id == b.id && a.tag == b.tag && a.style == b.style && a.childNodes == b.childNodes
    && a.classes - MarkerClasses == b.classes - MarkerClasses
    && a.attrs - {RemovedAttribute} == b.attrs - {RemovedAttribute}
  }

  /** `markAsApproved(element)`. */
  function MarkAsApproved(el: Node): (r: Node)
    requires el.Element?
    ensures r.Element? && ApprovedClass in r.classes && HiddenClass !in r.classes
    ensures RemovedAttribute !in r.attrs
    ensures SameApartFromMarkers(el, r)
  {
    el.(classes := el.classes + {ApprovedClass} - {HiddenClass}, attrs := el.attrs - {RemovedAttribute})
  }

  /** The synchronous part of `markAsHidden(element)`; the 150 ms timer is
      the separate event `RemovalTimerFires`. */
  function MarkAsHidden(el: Node): (r: Node)
    requires el.Element?
    ensures r.Element? && HiddenClass in r.classes && ApprovedClass !in r.classes
    ensures r.attrs == el.attrs
    ensures SameApartFromMarkers(el, r)
  {
    el.(classes := el.classes - {ApprovedClass} + {HiddenClass})
  }

  /** The timer `markAsHidden` starts: it sets `data-clarity-removed` to
      `"true"` whatever has happened to the element since. */
  function RemovalTimerFires(el: Node): (r: Node)
    requires el.Element?
    ensures GetAttribute(r, RemovedAttribute) == Some("true")
    ensures r.classes == el.classes
    ensures SameApartFromMarkers(el, r)
  {
    el.(attrs := el.attrs[RemovedAttribute := "true"])
  }

  /** Both marks are idempotent. */
  lemma MarksAreIdempotent(el: Node)
    requires el.Element?
    ensures MarkAsApproved(MarkAsApproved(el)) == MarkAsApproved(el)
    ensures MarkAsHidden(MarkAsHidden(el)) == MarkAsHidden(el)
  {
  }

  /** Each mark undoes the other: the last one wins, as far as the classes
      are concerned. */
  lemma LastMarkWins(el: Node)
    requires el.Element?
    ensures MarkAsApproved(MarkAsHidden(el)).classes == MarkAsApproved(el).classes
    ensures MarkAsHidden(MarkAsApproved(el)).classes == MarkAsHidden(el).classes
  {
  }

  /** The calls and timer runs that can reach an element. */
  datatype Mark = Approve | Hide | TimerFires

  /** The element after a sequence of marks and timer runs. */
  function ApplyMarks(el: Node, ms: seq<Mark>): (r: Node)
    requires el.Element?
    ensures r.Element?
    decreases |ms|
  {
    if |ms| == 0 then el
    else
      var next := match ms[0]
        case Approve => MarkAsApproved(el)
        case Hide => MarkAsHidden(el)
        case TimerFires => RemovalTimerFires(el);
      ApplyMarks(next, ms[1..])
  }

  /** An element that does not start with both marker classes never ends up
      with both, whatever sequence of marks and timer runs reaches it, and
      nothing but the markers and the removal attribute changes. */
  lemma {:induction false} NeverBothMarkers(el: Node, ms: seq<Mark>)
    requires el.Element? && !(ApprovedClass in el.classes && HiddenClass in el.classes)
    ensures var r := ApplyMarks(el, ms); !(ApprovedClass in r.classes && HiddenClass in r.classes)
    ensures SameApartFromMarkers(el, ApplyMarks(el, ms))
    decreases |ms|
  {
    if |ms| > 0 {
      var next := match ms[0]
        case Approve => MarkAsApproved(el)
        case Hide => MarkAsHidden(el)
        case TimerFires => RemovalTimerFires(el);
      NeverBothMarkers(next, ms[1..]);
    }
  }

  /** The timer is not cancelled by a later approval: hiding, approving and
      then letting the timer run leaves an approved element that is marked
      as removed. */
  lemma ApprovedYetMarkedRemoved(el: Node)
    requires el.Element?
    ensures var r := ApplyMarks(el, [Hide, Approve, TimerFires]);
      ApprovedClass in r.classes && GetAttribute(r, RemovedAttribute) == Some("true")
  {
    var r1 := MarkAsHidden(el);
    var r2 := MarkAsApproved(r1);
    var r3 := RemovalTimerFires(r2);
    assert ApplyMarks(r3, []) == r3;
    assert ApplyMarks(r2, [TimerFires]) == r3 by { assert [TimerFires][1..] == []; }
    assert ApplyMarks(r1, [Approve, TimerFires]) == r3 by { assert [Approve, TimerFires][1..] == [TimerFires]; }
    assert [Hide, Approve, TimerFires][1..] == [Approve, TimerFires];
  }
}
