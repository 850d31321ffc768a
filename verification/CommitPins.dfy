/**
 Commit pins: the root project's, and the ones the loader picks up from the [require]
 tables of the modules it has loaded.
 */
module CommitPins {

  /** A remote module: normalised URL and subdirectory ("" for the repository's root). */
  datatype RemoteId = RemoteId(url: string, subdir: string)

  datatype Entry = Entry(url: string, pin: string)

  type Pins = map<RemoteId, string>

  datatype Outcome = Merged(pins: Pins) | Conflict(pins: Pins, entry: Entry)

  function Slot(normalize: string -> string, e: Entry): RemoteId {
    RemoteId(normalize(e.url), "")
  }

  /** The entries that are looked at: a URL pinned by the root's [require] is skipped. */
  predicate Counts(normalize: string -> string, top: set<string>, e: Entry) {
    normalize(e.url) !in top
  }

  /** Merging in one given iteration order. */
  function Merge(normalize: string -> string, top: set<string>, pins: Pins, entries: seq<Entry>): Outcome
    decreases |entries|
  {
    if entries == [] then Merged(pins)
    else
      var e := entries[0];
      var slot := Slot(normalize, e);
      if !Counts(normalize, top, e) then Merge(normalize, top, pins, entries[1..])
      else if slot in pins && pins[slot] != e.pin then Conflict(pins, e)
      else Merge(normalize, top, pins[slot := e.pin], entries[1..])
  }

  ghost predicate Extends(old_: Pins, new_: Pins) {
    forall k :: k in old_ ==> k in new_ && new_[k] == old_[k]
  }

  /** Two different pins that meet on one slot. */
  ghost predicate Clash(normalize: string -> string, top: set<string>, pins: Pins, e: Entry) {
    Counts(normalize, top, e) && Slot(normalize, e) in pins && pins[Slot(normalize, e)] != e.pin
  }

  ghost predicate Agree(normalize: string -> string, top: set<string>, a: Entry, b: Entry) {
    Counts(normalize, top, a) && Counts(normalize, top, b) && Slot(normalize, a) == Slot(normalize, b)
    ==> a.pin == b.pin
  }

  ghost predicate Compatible(normalize: string -> string, top: set<string>, pins: Pins, entries: seq<Entry>) {
    && (forall e :: e in entries ==> !Clash(normalize, top, pins, e))
    && (forall a, b :: a in entries && b in entries ==> Agree(normalize, top, a, b))
  }

  /** A pin once effective keeps its value, through success and failure alike. */
  lemma {:induction false} MergeExtends(normalize: string -> string, top: set<string>, pins: Pins, entries: seq<Entry>)
    ensures Extends(pins, Merge(normalize, top, pins, entries).pins)
    decreases |entries|
  {
    if entries != [] {
      var e := entries[0];
      var slot := Slot(normalize, e);
      if !Counts(normalize, top, e) {
        MergeExtends(normalize, top, pins, entries[1..]);
      } else if !(slot in pins && pins[slot] != e.pin) {
        MergeExtends(normalize, top, pins[slot := e.pin], entries[1..]);
      }
    }
  }

  /** Merging fails exactly when two different pins meet on one URL that the root's
      [require] does not pin, whatever the order. */
  lemma {:induction false} MergeSucceedsExactly(normalize: string -> string, top: set<string>, pins: Pins, entries: seq<Entry>)
    ensures Merge(normalize, top, pins, entries).Merged? <==> Compatible(normalize, top, pins, entries)
    decreases |entries|
  {
    if entries != [] {
      var e, rest := entries[0], entries[1..];
      var slot := Slot(normalize, e);
      assert forall x :: x in entries <==> x == e || x in rest;
      if !Counts(normalize, top, e) {
        MergeSucceedsExactly(normalize, top, pins, rest);
      } else if slot in pins && pins[slot] != e.pin {
        assert Clash(normalize, top, pins, e);
      } else {
        var next := pins[slot := e.pin];
        MergeSucceedsExactly(normalize, top, next, rest);
        forall x | x in rest
          ensures Clash(normalize, top, next, x)
             <==> Clash(normalize, top, pins, x) || !Agree(normalize, top, e, x)
        {
        }
        assert forall x :: Agree(normalize, top, x, e) <==> Agree(normalize, top, e, x);
      }
    }
  }

  /** On success every slot holds its old pin or the one its entries name, no others. */
  lemma {:induction false} MergedPins(normalize: string -> string, top: set<string>, pins: Pins, entries: seq<Entry>, k: RemoteId)
    requires Merge(normalize, top, pins, entries).Merged?
    ensures var out := Merge(normalize, top, pins, entries).pins;
            && (k in out <==> k in pins || exists e :: e in entries && Counts(normalize, top, e) && Slot(normalize, e) == k)
            && (forall e :: e in entries && Counts(normalize, top, e) && Slot(normalize, e) == k ==> k in out && out[k] == e.pin)
    decreases |entries|
  {
    if entries != [] {
      var e, rest := entries[0], entries[1..];
      assert forall x :: x in entries <==> x == e || x in rest;
      if !Counts(normalize, top, e) {
        MergedPins(normalize, top, pins, rest, k);
      } else {
        var next := pins[Slot(normalize, e) := e.pin];
        MergedPins(normalize, top, next, rest, k);
        MergeExtends(normalize, top, next, rest);
      }
    }
  }

  /** The iteration order of the require table does not matter: same verdict, and the same
      pins on success. */
  lemma MergeOrderIrrelevant(normalize: string -> string, top: set<string>, pins: Pins, a: seq<Entry>, b: seq<Entry>)
    requires forall e :: e in a <==> e in b
    ensures Merge(normalize, top, pins, a).Merged? == Merge(normalize, top, pins, b).Merged?
    ensures Merge(normalize, top, pins, a).Merged?
        ==> Merge(normalize, top, pins, a).pins == Merge(normalize, top, pins, b).pins
  {
    MergeSucceedsExactly(normalize, top, pins, a);
    MergeSucceedsExactly(normalize, top, pins, b);
    if Merge(normalize, top, pins, a).Merged? {
      var pa, pb := Merge(normalize, top, pins, a).pins, Merge(normalize, top, pins, b).pins;
      MergeExtends(normalize, top, pins, a);
      MergeExtends(normalize, top, pins, b);
      forall k: RemoteId
        ensures (k in pa <==> k in pb) && (k in pa ==> pa[k] == pb[k])
      {
        MergedPins(normalize, top, pins, a, k);
        MergedPins(normalize, top, pins, b, k);
      }
    }
  }

  /** The root's [require] pins stand: merging never changes or removes one, and adds none,
      whether it succeeds or stops at a conflict. */
  lemma {:induction false} TopLevelPinsStand(normalize: string -> string, top: set<string>, pins: Pins, entries: seq<Entry>, k: RemoteId)
    requires k.url in top
    ensures var out := Merge(normalize, top, pins, entries).pins;
            (k in out <==> k in pins) && (k in pins ==> out[k] == pins[k])
    decreases |entries|
  {
    if entries != [] {
      var e, rest := entries[0], entries[1..];
      if !Counts(normalize, top, e) {
        TopLevelPinsStand(normalize, top, pins, rest, k);
      } else {
        TopLevelPinsStand(normalize, top, pins[Slot(normalize, e) := e.pin], rest, k);
      }
    }
  }

  /** A root pin given in a [require.NAME] section has no such priority: it is not
      among the URLs that are skipped, so a different transitive pin is an error. */
  lemma NamedRootPinConflicts(normalize: string -> string, top: set<string>, pins: Pins, entries: seq<Entry>, e: Entry)
    requires e in entries && normalize(e.url) !in top
    requires RemoteId(normalize(e.url), "") in pins && pins[RemoteId(normalize(e.url), "")] != e.pin
    ensures Merge(normalize, top, pins, entries).Conflict?
  {
    MergeSucceedsExactly(normalize, top, pins, entries);
    assert Clash(normalize, top, pins, e);
  }
}
