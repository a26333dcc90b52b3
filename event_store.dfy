/** The event provider: the in-memory `events` list, the logged-in user and the
    browser's local storage, with the load effect (on user change), the save effect
    (on every change of the list) and the four store operations. */
module EventStore {
  import opened Wrappers
  import opened Events

  /** What local storage holds under a key. `Serialized(es)` is the text written by
      `JSON.stringify(es)`; `Unparsable(text)` is any text on which `JSON.parse`
      throws. The empty text is falsy in JavaScript and is never parsed. */
  datatype Blob = Serialized(events: seq<Event>) | Unparsable(text: string)

  /** `JSON.stringify` of an event list, with `JSON.parse` as its inverse. */
  function Serialize(es: seq<Event>): (b: Blob)
    ensures Parse(b) == Some(es)
    ensures Truthy(b)
  {
    Serialized(es)
  }

  /** `JSON.parse`, with `None` for the branch that throws. */
  function Parse(b: Blob): Option<seq<Event>> {
    match b
    case Serialized(es) => Some(es)
    case Unparsable(_) => None
  }

  /** `if (savedEvents)`: a stored text is truthy unless it is empty. */
  predicate Truthy(b: Blob) {
    !(b.Unparsable? && b.text == "")
  }

  const Namespace: string := "calendar-events-"

  /** `calendar-events-${uid}`. */
  function StorageKey(uid: string): string {
    Namespace + uid
  }

  /** Distinct users have distinct storage keys. */
  lemma StorageKeyInjective(a: string, b: string)
    ensures StorageKey(a) == StorageKey(b) ==> a == b
  {
    if StorageKey(a) == StorageKey(b) {
      assert a == StorageKey(a)[|Namespace|..];
      assert b == StorageKey(b)[|Namespace|..];
    }
  }

  /** The list the load effect leaves for `user`, starting from `current`: empty with
      no user; empty when nothing (or the empty text) is stored; the parsed list when
      the blob parses; and `current`, untouched, when parsing fails. */
  function Loaded(current: seq<Event>, user: Option<string>, storage: map<string, Blob>): seq<Event> {
    match user
    case None => []
    case Some(uid) =>
      var key := StorageKey(uid);
      if key in storage && Truthy(storage[key]) then
        match Parse(storage[key])
        case Some(es) => es
        case None => current
      else []
  }

  /** The storage the save effect leaves: the whole list written under the user's key,
      or nothing written with no user. */
  function Saved(storage: map<string, Blob>, user: Option<string>, events: seq<Event>): map<string, Blob> {
    match user
    case None => storage
    case Some(uid) => storage[StorageKey(uid) := Serialize(events)]
  }

  /** Saving writes only the user's own key: every other user's entry (and every
      other key) is as it was. */
  lemma SavedTouchesOnlyOwnKey(storage: map<string, Blob>, user: Option<string>, events: seq<Event>, k: string)
    requires user.None? || k != StorageKey(user.value)
    ensures k in Saved(storage, user, events) <==> k in storage
    ensures k in storage ==> Saved(storage, user, events)[k] == storage[k]
  {
  }

  /** Loading right after saving gives back the saved list, whatever was in memory. */
  lemma LoadAfterSave(storage: map<string, Blob>, uid: string, events: seq<Event>, current: seq<Event>)
    ensures Loaded(current, Some(uid), Saved(storage, Some(uid), events)) == events
  {
  }

  /** Switching from user `a` to user `b` and back restores `a`'s list exactly as it
      was last written, whatever `b`'s stored blob holds. */
  lemma {:induction false} SwitchAwayAndBack(storage: map<string, Blob>, a: string, b: string, events: seq<Event>, later: seq<Event>)
    requires a != b
    requires StorageKey(a) in storage && storage[StorageKey(a)] == Serialize(events)
    ensures var bEvents := Loaded(events, Some(b), storage);
      Loaded(later, Some(a), Saved(storage, Some(b), bEvents)) == events
  {
    StorageKeyInjective(a, b);
    SavedTouchesOnlyOwnKey(storage, Some(b), Loaded(events, Some(b), storage), StorageKey(a));
  }

  /** Every stored, parsable list lies under its owner's key. */
  ghost predicate StorageOwned(storage: map<string, Blob>) {
    forall uid :: StorageKey(uid) in storage && storage[StorageKey(uid)].Serialized? ==>
      OwnedBy(storage[StorageKey(uid)].events, uid)
  }

  /** When stored lists lie under their owners' keys and the user's blob is not
      corrupt, the loaded list belongs to the user. */
  lemma LoadedOwned(current: seq<Event>, uid: string, storage: map<string, Blob>)
    requires StorageOwned(storage)
    requires StorageKey(uid) in storage ==> storage[StorageKey(uid)].Serialized? || storage[StorageKey(uid)].text == ""
    ensures OwnedBy(Loaded(current, Some(uid), storage), uid)
  {
  }

  /** Saving a list owned by the user keeps every stored list under its owner's key. */
  lemma SavedKeepsStorageOwned(storage: map<string, Blob>, uid: string, es: seq<Event>)
    requires StorageOwned(storage) && OwnedBy(es, uid)
    ensures StorageOwned(Saved(storage, Some(uid), es))
  {
    var saved := Saved(storage, Some(uid), es);
    forall u | StorageKey(u) in saved && saved[StorageKey(u)].Serialized?
      ensures OwnedBy(saved[StorageKey(u)].events, u)
    {
      StorageKeyInjective(u, uid);
    }
  }

  /** A change of user to one whose blob is not corrupt keeps stored lists under their
      owners' keys: the load gives the user's own list, and the save writes it back. */
  lemma {:induction false} LoadThenSaveKeepsStorageOwned(current: seq<Event>, uid: string, storage: map<string, Blob>)
    requires StorageOwned(storage)
    requires StorageKey(uid) in storage ==> storage[StorageKey(uid)].Serialized? || storage[StorageKey(uid)].text == ""
    ensures OwnedBy(Loaded(current, Some(uid), storage), uid)
    ensures StorageOwned(Saved(storage, Some(uid), Loaded(current, Some(uid), storage)))
  {
    LoadedOwned(current, uid, storage);
    SavedKeepsStorageOwned(storage, uid, Loaded(current, Some(uid), storage));
  }

  /** A corrupt blob is not reset: after switching from `a` to `b` with `b`'s blob
      unparsable, the list still holds `a`'s events, and the save effect then writes
      them under `b`'s key, replacing the corrupt blob with another user's events. */
  lemma CorruptBlobKeepsPreviousUsersEvents(storage: map<string, Blob>, a: string, b: string, events: seq<Event>)
    requires a != b && events != [] && OwnedBy(events, a)
    requires StorageKey(b) in storage && storage[StorageKey(b)].Unparsable? && storage[StorageKey(b)].text != ""
    ensures var loaded := Loaded(events, Some(b), storage);
      && loaded == events
      && !OwnedBy(loaded, b)
      && Saved(storage, Some(b), loaded)[StorageKey(b)] == Serialized(events)
  {
    assert events[0].userId == a;
  }

  /** The event provider's state. */
  class Store {
    /** The in-memory list (`useState<Event[]>`). */
    var events: seq<Event>
    /** The uid of the logged-in user, if any (`useAuth().user`). */
    var user: Option<string>
    /** Local storage. */
    var storage: map<string, Blob>

    /** The save effect has run: the logged-in user's key holds the whole list. */
    ghost predicate Synced()
      reads this
    {
      user.Some? ==> StorageKey(user.value) in storage && storage[StorageKey(user.value)] == Serialize(events)
    }

    /** Ownership: the list in memory belongs to the logged-in user, and every stored
        list lies under its owner's key. */
    ghost predicate Owned()
      reads this
    {
      (user.Some? ==> OwnedBy(events, user.value)) && StorageOwned(storage)
    }

    /** The user's stored blob, if any, parses or is the empty text. */
    ghost predicate BlobReadable(u: string)
      reads this
    {
      StorageKey(u) in storage ==> storage[StorageKey(u)].Serialized? || storage[StorageKey(u)].text == ""
    }

    /** Mount with no user yet: the list is empty and storage is what the browser has. */
    constructor (persisted: map<string, Blob>)
      ensures events == [] && user == None && storage == persisted
      ensures Synced()
    {
      events := [];
      user := None;
      storage := persisted;
    }

    /** The save effect (`localStorage.setItem(key, JSON.stringify(events))` when a
        user is logged in). */
    method Save()
      modifies this`storage
      ensures storage == Saved(old(storage), user, events)
      ensures Synced()
    {
      if user.None? {
        return;
      }
      storage := storage[StorageKey(user.value) := Serialize(events)];
    }

    /** The identity provider reports `u`: the load effect runs, then the save effect
        (both depend on the user). */
    method ChangeUser(u: Option<string>)
      modifies this
      ensures user == u
      ensures events == Loaded(old(events), u, old(storage))
      ensures storage == Saved(old(storage), u, events)
      ensures Synced()
      ensures old(StorageOwned(storage)) && (u.Some? ==> old(BlobReadable(u.value))) ==> Owned()
    {
      user := u;
      if u.None? {
        events := [];
      } else {
        var key := StorageKey(u.value);
        if key in storage && Truthy(storage[key]) {
          var parsed := Parse(storage[key]);
          if parsed.Some? {
            events := parsed.value;
          }
          // else: the error is logged and the list is left as it was
        } else {
          events := [];
        }
      }
      Save();
      if old(StorageOwned(storage)) && u.Some? && old(BlobReadable(u.value)) {
        LoadThenSaveKeepsStorageOwned(old(events), u.value, old(storage));
      }
    }

    /** `addEvent(draft)`, with `freshId` standing for the generated id. */
    method AddEvent(d: Draft, freshId: string)
      modifies this`events, this`storage
      ensures user.None? ==> events == old(events) && storage == old(storage)
      ensures user.Some? ==> events == Appended(old(events), d, user.value, freshId)
      ensures user.Some? ==> storage == Saved(old(storage), user, events)
      ensures old(Synced()) ==> Synced()
      ensures old(Owned()) ==> Owned()
    {
      if user.None? {
        return;
      }
      var newEvent := Created(d, user.value, freshId);
      events := events + [newEvent];
      Save();
      if old(Owned()) {
        AppendedOwned(old(events), d, user.value, freshId);
        SavedKeepsStorageOwned(old(storage), user.value, events);
      }
    }

    /** `updateEvent(id, patch)`. */
    method UpdateEvent(id: string, p: Patch)
      modifies this`events, this`storage
      ensures user.None? ==> events == old(events) && storage == old(storage)
      ensures user.Some? ==> events == Updated(old(events), id, user.value, p)
      ensures user.Some? ==> storage == Saved(old(storage), user, events)
      ensures old(Synced()) ==> Synced()
      ensures old(Owned()) && (p.userId.None? || p.userId == user) ==> Owned()
    {
      if user.None? {
        return;
      }
      events := Updated(events, id, user.value, p);
      Save();
      if old(Owned()) && (p.userId.None? || p.userId == user) {
        UpdatedOwned(old(events), id, user.value, p);
        SavedKeepsStorageOwned(old(storage), user.value, events);
      }
    }

    /** `deleteEvent(id)`. */
    method DeleteEvent(id: string)
      modifies this`events, this`storage
      ensures user.None? ==> events == old(events) && storage == old(storage)
      ensures user.Some? ==> events == Deleted(old(events), id, user.value)
      ensures user.Some? ==> storage == Saved(old(storage), user, events)
      ensures old(Synced()) ==> Synced()
      ensures old(Owned()) ==> Owned()
    {
      if user.None? {
        return;
      }
      events := Deleted(events, id, user.value);
      Save();
      if old(Owned()) {
        DeletedOwned(old(events), id, user.value);
        SavedKeepsStorageOwned(old(storage), user.value, events);
      }
    }

    /** `getEventsForDate(date)`: the user's entries of that day, in list order; the
        empty list with no user. */
    method GetEventsForDate(date: string) returns (r: seq<Event>)
      ensures r == Query(events, user, date)
    {
      if user.None? {
        return [];
      }
      r := ForDate(events, date, user.value);
    }
  }

  /** A session that logs in as `b` and then again as `a` finds `a`'s list as it was. */
  method SwitchUserAndBack(s: Store, a: string, b: string)
    requires s.user == Some(a) && s.Synced()
    modifies s
    ensures s.user == Some(a) && s.Synced()
    ensures s.events == old(s.events)
  {
    ghost var before := s.events;
    ghost var st := s.storage;
    s.ChangeUser(Some(b));
    if a != b {
      SwitchAwayAndBack(st, a, b, before, s.events);
    }
    s.ChangeUser(Some(a));
  }
}
