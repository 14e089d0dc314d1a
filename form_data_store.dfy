/**
 * The per-user form-progress store (frontend/contexts/FormDataContext.tsx):
 * the wizard's answers held in memory and mirrored into `localStorage`
 * under `form_data_<user>`, stamped with the time of the write.
 *
 * `localStorage` is a map from key to stored entry; an entry that
 * `JSON.parse` rejects is `Corrupt`. The user and the authentication flag
 * come from the session and are passed in; `new Date().toISOString()` is the
 * parameter `now`. The 100 ms `setTimeout` before an update's write is
 * treated as immediate.
 */
module FormDataStore {
  import opened Wrappers
  import opened FormValues

  datatype Stored = Saved(record: Record) | Corrupt

  type Storage = map<string, Stored>

  /** The provider's state: the in-memory record, the loading flag, and the whole of `localStorage`. */
  datatype Store = Store(formData: Record, isLoading: bool, storage: Storage)

  const KeyPrefix := "form_data_"
  const StampField := "lastUpdated"

  /** `getStorageKey`: no key without a (truthy) user. */
  function StorageKey(user: Option<string>): (k: Option<string>)
    ensures k.Some? <==> user.Some? && user.value != ""
  {
    if user.Some? && user.value != "" then Some(KeyPrefix + user.value) else None
  }

  /** Distinct users have distinct keys. */
  lemma StorageKeyInjective(a: string, b: string)
    requires a != "" && b != ""
    requires StorageKey(Some(a)) == StorageKey(Some(b))
    ensures a == b
  {
    assert (KeyPrefix + a)[|KeyPrefix|..] == a;
    assert (KeyPrefix + b)[|KeyPrefix|..] == b;
  }

  /** `{ ...data, lastUpdated: now }`. */
  function Stamped(data: Record, now: string): (r: Record)
    ensures r.Keys == data.Keys + {StampField}
    ensures r[StampField] == Str(now)
    ensures forall k :: k in data && k != StampField ==> r[k] == data[k]
  {
    Merge(data, map[StampField := Str(now)])
  }

  /** The load effect (lines 82-109). */
  function Loaded(s: Store, isAuthenticated: bool, user: Option<string>): Store {
    if isAuthenticated && StorageKey(user).Some? then
      var key := StorageKey(user).value;
      if key in s.storage then
        match s.storage[key]
        case Saved(r) => Store(r, false, s.storage)
        case Corrupt => Store(s.formData, false, s.storage - {key})
      else s.(isLoading := false)
    else Store(map[], false, s.storage)
  }

  /** `saveToStorage` (lines 112-126): only with a key and a non-empty record. */
  function SavedToStorage(s: Store, user: Option<string>, now: string): Store {
    if StorageKey(user).Some? && |s.formData| > 0 then
      s.(storage := s.storage[StorageKey(user).value := Saved(Stamped(s.formData, now))])
    else s
  }

  /** `updateFormData` (lines 129-151): merge, then write the merged record whenever there is a key. */
  function Updated(s: Store, user: Option<string>, data: Record, now: string): Store {
    var newData := Merge(s.formData, data);
    var storage := if StorageKey(user).Some? then s.storage[StorageKey(user).value := Saved(Stamped(newData, now))] else s.storage;
    s.(formData := newData, storage := storage)
  }

  /** `clearFormData` (lines 154-165). */
  function Cleared(s: Store, user: Option<string>): Store {
    var storage := if StorageKey(user).Some? then s.storage - {StorageKey(user).value} else s.storage;
    s.(formData := map[], storage := storage)
  }

  /** The auto-save effect (lines 168-172). */
  function AutoSaved(s: Store, isAuthenticated: bool, user: Option<string>, now: string): Store {
    if isAuthenticated && StorageKey(user).Some? && |s.formData| > 0 then SavedToStorage(s, user, now) else s
  }

  /** Two storages agree on every key but `key`. */
  ghost predicate AgreeOutside(a: Storage, b: Storage, key: string) {
    forall k :: k != key ==> (k in a <==> k in b) && (k in a ==> a[k] == b[k])
  }

  /**
   * Loading on authentication: a saved record becomes the form data, no entry
   * leaves the form data as it was, a corrupt entry is removed. Without
   * authentication the form data is emptied. Loading ends in every case.
   */
  lemma LoadedSpec(s: Store, isAuthenticated: bool, user: Option<string>)
    ensures var t := Loaded(s, isAuthenticated, user);
      !t.isLoading &&
      (isAuthenticated && StorageKey(user).Some? ==>
        var key := StorageKey(user).value;
        AgreeOutside(t.storage, s.storage, key) &&
        (key in s.storage && s.storage[key].Saved? ==> t.formData == s.storage[key].record && t.storage == s.storage) &&
        (key !in s.storage ==> t.formData == s.formData && t.storage == s.storage) &&
        (key in s.storage && s.storage[key].Corrupt? ==> t.formData == s.formData && key !in t.storage)) &&
      (!(isAuthenticated && StorageKey(user).Some?) ==> t.formData == map[] && t.storage == s.storage)
  {
  }

  /**
   * The record written is the form data plus the time stamp; nothing is
   * written for an empty record or without a user; other keys are untouched.
   */
  lemma SavedToStorageSpec(s: Store, user: Option<string>, now: string)
    ensures var t := SavedToStorage(s, user, now);
      t.formData == s.formData &&
      (StorageKey(user).None? || |s.formData| == 0 ==> t.storage == s.storage) &&
      (StorageKey(user).Some? && |s.formData| > 0 ==>
        var key := StorageKey(user).value;
        AgreeOutside(t.storage, s.storage, key) && key in t.storage && t.storage[key] == Saved(Stamped(s.formData, now)))
  {
  }

  /**
   * An update merges the data over the record (the data wins, other fields
   * stay) and, given a user, persists the merged record with its stamp;
   * the same update twice is the update once.
   */
  lemma UpdatedSpec(s: Store, user: Option<string>, data: Record, now: string)
    ensures var t := Updated(s, user, data, now);
      t.formData.Keys == s.formData.Keys + data.Keys &&
      (forall k :: k in data ==> t.formData[k] == data[k]) &&
      (forall k :: k in s.formData && k !in data ==> t.formData[k] == s.formData[k]) &&
      Updated(t, user, data, now) == t &&
      (StorageKey(user).Some? ==> var key := StorageKey(user).value;
        AgreeOutside(t.storage, s.storage, key) && t.storage[key] == Saved(Stamped(t.formData, now))) &&
      (StorageKey(user).None? ==> t.storage == s.storage)
  {
    MergeIdempotent(s.formData, data);
  }

  /** Clearing empties the record and removes the user's entry only. */
  lemma ClearedSpec(s: Store, user: Option<string>)
    ensures var t := Cleared(s, user);
      t.formData == map[] &&
      (StorageKey(user).Some? ==> StorageKey(user).value !in t.storage && AgreeOutside(t.storage, s.storage, StorageKey(user).value)) &&
      (StorageKey(user).None? ==> t.storage == s.storage)
  {
  }

  /** After a clear, the auto-save effect does not write the empty record back. */
  lemma ClearThenAutoSave(s: Store, isAuthenticated: bool, user: Option<string>, now: string)
    ensures AutoSaved(Cleared(s, user), isAuthenticated, user, now) == Cleared(s, user)
  {
  }

  /** What a reload finds: after a save, loading for the same user brings back the record with its stamp. */
  lemma SaveThenLoad(s: Store, user: Option<string>, now: string)
    requires StorageKey(user).Some? && |s.formData| > 0
    ensures Loaded(SavedToStorage(s, user, now), true, user).formData == Stamped(s.formData, now)
  {
  }

  /** The store operations, for one user at a time. */
  datatype StoreOp =
    | Load(isAuthenticated: bool)
    | Save(now: string)
    | Update(data: Record, now: string)
    | Clear
    | AutoSave(isAuthenticated: bool, now: string)

  function ApplyOp(s: Store, user: Option<string>, op: StoreOp): Store {
    match op
    case Load(a) => Loaded(s, a, user)
    case Save(now) => SavedToStorage(s, user, now)
    case Update(d, now) => Updated(s, user, d, now)
    case Clear => Cleared(s, user)
    case AutoSave(a, now) => AutoSaved(s, a, user, now)
  }

  function RunOps(s: Store, user: Option<string>, ops: seq<StoreOp>): Store
    decreases |ops|
  {
    if ops == [] then s else RunOps(ApplyOp(s, user, ops[0]), user, ops[1..])
  }

  /** Each operation touches at most the entry of its own user, and none without a user. */
  lemma ApplyOpOwnKeyOnly(s: Store, user: Option<string>, op: StoreOp, k: string)
    requires StorageKey(user) != Some(k)
    ensures var t := ApplyOp(s, user, op);
      (k in t.storage <==> k in s.storage) && (k in s.storage ==> t.storage[k] == s.storage[k])
  {
  }

  /**
   * Whatever one user does, every other user's entry (and, without a user,
   * every entry) is exactly as it was.
   */
  lemma {:induction false} OtherUsersUntouched(s: Store, user: Option<string>, ops: seq<StoreOp>, k: string)
    requires StorageKey(user) != Some(k)
    ensures var t := RunOps(s, user, ops);
      (k in t.storage <==> k in s.storage) && (k in s.storage ==> t.storage[k] == s.storage[k])
    decreases |ops|
  {
    if ops != [] {
      ApplyOpOwnKeyOnly(s, user, ops[0], k);
      OtherUsersUntouched(ApplyOp(s, user, ops[0]), user, ops[1..], k);
    }
  }

  /** The provider, with `localStorage` as one of its fields. */
  class FormDataProvider {
    var formData: Record
    var isLoading: bool
    var storage: Storage

    function State(): Store
      reads this
    {
      Store(formData, isLoading, storage)
    }

    /** Mounting: empty record, loading, and whatever `localStorage` already holds. */
    constructor(existing: Storage)
      ensures State() == Store(map[], true, existing)
    {
      formData := map[];
      isLoading := true;
      storage := existing;
    }

    method LoadEffect(isAuthenticated: bool, user: Option<string>)
      modifies this
      ensures State() == Loaded(old(State()), isAuthenticated, user)
    {
      if isAuthenticated && user.Some? && user.value != "" {
        var storageKey := StorageKey(user);
        if storageKey.Some? {
          var key := storageKey.value;
          if key in storage {
            match storage[key]
            case Saved(r) => formData := r;
            case Corrupt => storage := storage - {key};
          }
        }
        isLoading := false;
      } else {
        formData := map[];
        isLoading := false;
      }
    }

    method SaveToStorage(user: Option<string>, now: string)
      modifies this
      ensures State() == SavedToStorage(old(State()), user, now)
    {
      var storageKey := StorageKey(user);
      if storageKey.Some? && |formData| > 0 {
        var dataToSave := formData + map[StampField := Str(now)];
        storage := storage[storageKey.value := Saved(dataToSave)];
      }
    }

    method UpdateFormData(user: Option<string>, data: Record, now: string)
      modifies this
      ensures State() == Updated(old(State()), user, data, now)
    {
      var newData := formData + data;
      var storageKey := StorageKey(user);
      if storageKey.Some? {
        storage := storage[storageKey.value := Saved(newData + map[StampField := Str(now)])];
      }
      formData := newData;
    }

    method ClearFormData(user: Option<string>)
      modifies this
      ensures State() == Cleared(old(State()), user)
    {
      var storageKey := StorageKey(user);
      if storageKey.Some? {
        storage := storage - {storageKey.value};
      }
      formData := map[];
    }

    method AutoSaveEffect(isAuthenticated: bool, user: Option<string>, now: string)
      modifies this
      ensures State() == AutoSaved(old(State()), isAuthenticated, user, now)
    {
      if isAuthenticated && user.Some? && user.value != "" && |formData| > 0 {
        SaveToStorage(user, now);
      }
    }
  }
}
