/** The TTL session store of `src/lib/chat-session.ts`: one record under one key of
    the browser's per-tab session storage, expiring 20 minutes after it was saved. */
module ChatSession {
  import opened Wrappers
  import opened Transcript

  /** The single storage key the store reads and writes. */
  const Key: string := "chat_session_v1"

  /** Time to live of a saved record, in milliseconds (20 minutes). */
  const TtlMs: int := 20 * 60 * 1000

  /** What a storage entry holds: a parsable record; the empty string, which the
      falsy test on the raw text treats like a missing entry; or other text whose
      parsing, or the read of its `ts`, throws. */
  datatype Stored = Valid(messages: seq<Msg>, ts: int) | Blank | Malformed

  /** What `loadSession` returns when a session is present. */
  datatype Session = Session(messages: seq<Msg>, ts: int)

  /** The browser's session storage: string keys to entries. */
  type Storage = map<string, Stored>

  /** A record saved at `ts` has expired at `now` when strictly more than the TTL has passed. */
  predicate Expired(ts: int, now: int) {
    now - ts > TtlMs
  }

  /** The result of `loadSession()` at time `now`, and the storage afterwards.
      Without a window, with no entry or with an empty one, nothing is changed. */
  function Load(hasWindow: bool, storage: Storage, now: int): (r: (Option<Session>, Storage))
    ensures r.0.Some? <==>
      hasWindow && Key in storage && storage[Key].Valid? && !Expired(storage[Key].ts, now)
    ensures r.0.Some? ==> r.0.value == Session(storage[Key].messages, storage[Key].ts) && r.1 == storage
    ensures !hasWindow || Key !in storage || storage[Key].Blank? ==> r == (None, storage)
    ensures r.1 == storage || (hasWindow && Key in storage && r.1 == storage - {Key})
    ensures hasWindow && Key in storage && !storage[Key].Blank? && r.0.None? ==> Key !in r.1
  {
    if !hasWindow || Key !in storage then (None, storage)
    else match storage[Key]
      case Blank => (None, storage)
      case Malformed => (None, storage - {Key})
      case Valid(msgs, ts) =>
        if Expired(ts, now) then (None, storage - {Key}) else (Some(Session(msgs, ts)), storage)
  }

  /** The storage after `saveSession(messages)` at time `now`: the key is overwritten wholesale. */
  function Save(hasWindow: bool, storage: Storage, messages: seq<Msg>, now: int): (r: Storage)
    ensures hasWindow ==> Key in r && r[Key] == Valid(messages, now)
    ensures hasWindow ==> r - {Key} == storage - {Key}
    ensures !hasWindow ==> r == storage
  {
    if hasWindow then storage[Key := Valid(messages, now)] else storage
  }

  /** The storage after `clearSession()`. */
  function Clear(hasWindow: bool, storage: Storage): (r: Storage)
    ensures hasWindow ==> Key !in r && r == storage - {Key}
    ensures !hasWindow ==> r == storage
  {
    if hasWindow then storage - {Key} else storage
  }

  /** Saving and loading again within the TTL gives back exactly what was saved,
      with the save time, and leaves storage as the save left it. */
  lemma SaveThenLoad(storage: Storage, messages: seq<Msg>, savedAt: int, now: int)
    requires now - savedAt <= TtlMs
    ensures var saved := Save(true, storage, messages, savedAt);
      Load(true, saved, now) == (Some(Session(messages, savedAt)), saved)
  {
  }

  /** A record exactly one TTL old is still returned: the expiry test is strict. */
  lemma TtlBoundaryStillLoads(storage: Storage, messages: seq<Msg>, savedAt: int)
    ensures Load(true, Save(true, storage, messages, savedAt), savedAt + TtlMs).0
      == Some(Session(messages, savedAt))
  {
  }

  /** An expired record yields no session and is removed, so a second load finds
      nothing and changes nothing. */
  lemma ExpiredLoadIsIdempotent(storage: Storage, now: int, later: int)
    requires Key in storage && storage[Key].Valid? && Expired(storage[Key].ts, now)
    ensures var (first, after) := Load(true, storage, now);
      first == None && Key !in after && Load(true, after, later) == (None, after)
  {
  }

  /** A malformed record yields no session and is removed. */
  lemma MalformedIsPurged(storage: Storage, now: int)
    requires Key in storage && storage[Key] == Malformed
    ensures Load(true, storage, now) == (None, storage - {Key})
  {
  }

  /** An empty entry yields no session and stays in place. */
  lemma BlankIsKept(storage: Storage, now: int)
    requires Key in storage && storage[Key] == Blank
    ensures Load(true, storage, now) == (None, storage)
  {
  }

  /** Loading touches no key other than the store's own. */
  lemma LoadLeavesOtherKeys(hasWindow: bool, storage: Storage, now: int, k: string)
    requires k != Key
    ensures var after := Load(hasWindow, storage, now).1;
      (k in after <==> k in storage) && (k in storage ==> after[k] == storage[k])
  {
  }

  /** Clearing after saving leaves no session to load, whatever the time. */
  lemma ClearThenLoad(storage: Storage, messages: seq<Msg>, savedAt: int, now: int)
    ensures var cleared := Clear(true, Save(true, storage, messages, savedAt));
      Load(true, cleared, now) == (None, cleared)
  {
  }

  /** The session store, with the browser's storage as a field. */
  class SessionStore {
    /** Whether a browser `window` exists (false during server-side rendering). */
    const hasWindow: bool
    var storage: Storage

    constructor (hasWindow: bool, storage: Storage)
      ensures this.hasWindow == hasWindow && this.storage == storage
    {
      this.hasWindow := hasWindow;
      this.storage := storage;
    }

    /** `loadSession()`, with the clock reading passed as `now`. */
    method LoadSession(now: int) returns (r: Option<Session>)
      modifies this
      ensures (r, storage) == Load(hasWindow, old(storage), now)
    {
      r := None;
      if !hasWindow {
        return;
      }
      if Key !in storage {
        return;
      }
      match storage[Key]
      case Blank =>
        return;
      case Malformed =>
        storage := storage - {Key};
      case Valid(msgs, ts) =>
        if now - ts > TtlMs {
          storage := storage - {Key};
        } else {
          r := Some(Session(msgs, ts));
        }
    }

    /** `saveSession(messages)` at time `now`. */
    method SaveSession(messages: seq<Msg>, now: int)
      modifies this
      ensures storage == Save(hasWindow, old(storage), messages, now)
    {
      if !hasWindow {
        return;
      }
      storage := storage[Key := Valid(messages, now)];
    }

    /** `clearSession()`. */
    method ClearSession()
      modifies this
      ensures storage == Clear(hasWindow, old(storage))
    {
      if !hasWindow {
        return;
      }
      storage := storage - {Key};
    }
  }
}
