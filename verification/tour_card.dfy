/** The handlers of `components/dashboard/TourCard.tsx`: flipping a tour's
    status and deleting it, with the card's selection, busy flag and
    confirmation dialog, and whether the tour list is asked to refresh. */
module TourCard {
  import opened Wrappers
  import opened TourTypes
  import TourStore

  /** How the awaited data-access call ended: with no error, with an
      `error` in its reply, or by throwing. */
  datatype Reply = Succeeded | Failed | Threw

  /** `tour.status === "active" ? "inactive" : "active"`. */
  function Toggled(status: string): (r: string)
    ensures status == Active ==> r == Inactive
    ensures status != Active ==> r == Active
  {
    if status == Active then Inactive else Active
  }

  /** Two flips give back either of the two record statuses. */
  lemma ToggleTwice(status: string)
    requires status == Active || status == Inactive
    ensures Toggled(Toggled(status)) == status
  {
  }

  /** Any other spelling, such as the `"Inactive"` that `createTour` stores
      by default, is first flipped to `"active"`, so two flips land on
      `"inactive"` and do not restore it. */
  lemma ToggleTwiceNormalises(status: string)
    requires status != Active && status != Inactive
    ensures Toggled(Toggled(status)) == Inactive != status
  {
  }

  /** The card's own state: the page's selected tour id, the busy flag of
      the running handler and whether its dialog is open. */
  datatype Card = Card(selected: Option<int>, busy: bool, dialogOpen: bool)

  /** The card after a handler, and whether `onTourUpdated` ran. */
  datatype Effect = Effect(card: Card, refreshed: bool)

  /** `handleDelete` for the card of tour `tourId`. */
  function AfterDelete(c: Card, tourId: int, reply: Reply): (r: Effect)
    ensures !r.card.busy && !r.card.dialogOpen
    ensures r.refreshed <==> reply == Succeeded
    ensures reply == Succeeded && c.selected == Some(tourId) ==> r.card.selected == None
    ensures !(reply == Succeeded && c.selected == Some(tourId)) ==> r.card.selected == c.selected
  {
    var selected := if reply == Succeeded && c.selected == Some(tourId) then None else c.selected;
    Effect(Card(selected, false, false), reply == Succeeded)
  }

  /** `handleStatusToggle`: the selection is never touched. */
  function AfterStatusToggle(c: Card, reply: Reply): (r: Effect)
    ensures !r.card.busy && !r.card.dialogOpen
    ensures r.refreshed <==> reply == Succeeded
    ensures r.card.selected == c.selected
  {
    Effect(Card(c.selected, false, false), reply == Succeeded)
  }

  /** The reply the card sees from a store operation. */
  function ReplyOf<T>(o: TourStore.Outcome<T>): (r: Reply)
    ensures r == Succeeded <==> o.result.Ok?
    ensures r != Threw
  {
    if o.result.Ok? then Succeeded else Failed
  }

  /** Toggling a tour's status twice through the store gives back the
      store it started from. */
  lemma StoreToggleTwice(s: TourStore.Store, tourId: int, userId: string)
    requires TourStore.Owns(s, tourId, userId)
    requires s.tours[tourId].status == Active || s.tours[tourId].status == Inactive
    ensures var o1 := TourStore.UpdateTourStatus(s, tourId, userId, Toggled(s.tours[tourId].status), false);
      && o1.result.Ok?
      && var o2 := TourStore.UpdateTourStatus(o1.store, tourId, userId, Toggled(o1.store.tours[tourId].status), false);
      && o2.result.Ok?
      && o2.store == s
  {
    var t := s.tours[tourId];
    var o1 := TourStore.UpdateTourStatus(s, tourId, userId, Toggled(t.status), false);
    assert o1.store.tours[tourId] == t.(status := Toggled(t.status));
    var o2 := TourStore.UpdateTourStatus(o1.store, tourId, userId, Toggled(o1.store.tours[tourId].status), false);
    assert o2.store.tours[tourId] == t;
    assert o2.store.tours == s.tours;
  }

  /** A selection that names a stored tour still names one after the card
      deletes its tour through the store. */
  lemma SelectionStaysValid(s: TourStore.Store, c: Card, tourId: int, userId: string, fails: bool)
    requires c.selected.Some? ==> c.selected.value in s.tours
    ensures var o := TourStore.DeleteTour(s, tourId, userId, fails);
      var e := AfterDelete(c, tourId, ReplyOf(o));
      e.card.selected.Some? ==> e.card.selected.value in o.store.tours
  {
  }
}
