/** One browser tab's session (sdks/ave-sdk/src/session.ts), cut at its awaits. */
module AveSession {
  import opened Options
  import opened TokenServer
  import RefreshErrors

  datatype Snapshot = Snapshot(
    accessToken: nat,
    refreshToken: Option<Token>,
    appKey: Option<string>,
    appEncryptionWasReset: bool,
    expiresAtMs: Time)

  datatype TokenResponse = TokenResponse(
    accessToken: nat,
    refreshToken: Option<Token>,
    appKey: Option<string>,
    appKeyReset: bool,
    expiresAtMs: Time)

  datatype Status = SignedOut | SignedIn

  /** Where a refresh of the tab stands; every phase from ReadingDisk on holds the refresh lock. */
  datatype RefreshPhase =
    | Resting
    | WaitingForLock
    | ReadingDisk(mem: Option<Snapshot>)
    | Deciding(mem: Option<Snapshot>, disk: Option<Snapshot>)
    | AwaitingReply(h: HandlerId, prev: Snapshot)
    | Saving(next: Snapshot)
    | Saved(next: Snapshot)

  /** setTokensFromResponse, setAppKeyBase64 and signOut all save a snapshot and go on once it is stored. */
  datatype WriteKind = SettingTokens | SettingAppKey | SigningOut

  datatype WritePhase =
    | NotWriting
    | Writing(kind: WriteKind, next: Option<Snapshot>)
    | Written(kind: WriteKind, next: Option<Snapshot>)

  datatype Tab = Tab(
    snapshot: Option<Snapshot>,
    status: Status,
    hydrated: bool,
    refresh: RefreshPhase,
    write: WritePhase)

  const NEW_TAB: Tab := Tab(None, SignedOut, false, Resting, NotWriting)

  function OrElse<T>(a: Option<T>, b: Option<T>): Option<T> {
    if a.Some? then a else b
  }

  /** snapshotFromTokenResponse: a missing refresh token or key is kept, a reset drops the key. */
  function SnapshotFromTokenResponse(tr: TokenResponse, previous: Option<Snapshot>): Snapshot {
    Snapshot(
      tr.accessToken,
      OrElse(tr.refreshToken, if previous.Some? then previous.value.refreshToken else None),
      OrElse(tr.appKey, if !tr.appKeyReset && previous.Some? then previous.value.appKey else None),
      tr.appKeyReset,
      tr.expiresAtMs)
  }

  predicate DiskFresh(disk: Snapshot, mem: Snapshot) {
    disk.expiresAtMs > mem.expiresAtMs
    || (disk.refreshToken.Some? && disk.refreshToken != mem.refreshToken)
  }

  /** `{ ...mem, ...fromDisk }`: an undefined field of the stored snapshot keeps the one in memory. */
  function Merge(mem: Snapshot, disk: Snapshot): Snapshot {
    disk.(refreshToken := OrElse(disk.refreshToken, mem.refreshToken), appKey := OrElse(disk.appKey, mem.appKey))
  }

  function Hydrate(tab: Tab, stored: Option<Snapshot>): Tab {
    if tab.hydrated then tab
    else tab.(snapshot := stored, status := if stored.Some? then SignedIn else SignedOut, hydrated := true)
  }

  function Reload(tab: Tab, stored: Option<Snapshot>): Tab {
    if stored.Some? then tab.(snapshot := stored, status := SignedIn) else tab
  }

  function PeerSignedOut(tab: Tab): Tab {
    tab.(snapshot := None, status := SignedOut, hydrated := true)
  }

  function BeginSetTokens(tab: Tab, tr: TokenResponse): Tab {
    tab.(write := Writing(SettingTokens, Some(SnapshotFromTokenResponse(tr, tab.snapshot))))
  }

  function BeginSetAppKey(tab: Tab, key: Option<string>): Tab
    requires tab.snapshot.Some?
  {
    tab.(write := Writing(SettingAppKey, Some(tab.snapshot.value.(appKey := key))))
  }

  function BeginSignOut(tab: Tab): Tab {
    tab.(snapshot := None, write := Writing(SigningOut, None))
  }

  function FinishWrite(tab: Tab): Tab
    requires tab.write.Written?
  {
    var done := tab.(write := NotWriting);
    match tab.write.kind
    case SettingTokens => done.(snapshot := tab.write.next, status := SignedIn, hydrated := true)
    case SettingAppKey => done.(snapshot := tab.write.next)
    case SigningOut => done.(status := SignedOut, hydrated := true)
  }

  /** What runRefresh does once it has the lock and the stored snapshot. */
  datatype Decision = Adopt | GiveUp | Present(token: Token)

  function Decide(tab: Tab): Decision
    requires tab.refresh.Deciding?
  {
    var mem, disk := tab.refresh.mem, tab.refresh.disk;
    if disk.Some? && mem.Some? && DiskFresh(disk.value, mem.value) then Adopt
    else if tab.snapshot.None? || tab.snapshot.value.refreshToken.None? then GiveUp
    else Present(tab.snapshot.value.refreshToken.value)
  }

  /** The tab after the decision; handler h serves the request if there is one. */
  function Decided(tab: Tab, h: HandlerId): Tab
    requires tab.refresh.Deciding?
  {
    match Decide(tab)
    case Adopt =>
      tab.(snapshot := Some(Merge(tab.refresh.mem.value, tab.refresh.disk.value)), status := SignedIn, refresh := Resting)
    case GiveUp => PeerSignedOut(tab).(refresh := Resting)
    case Present(_) => tab.(refresh := AwaitingReply(h, tab.snapshot.value))
  }

  /** What the request of a refresh comes to: a token response, or an error that is caught. */
  datatype RefreshOutcome = Succeeded(tr: TokenResponse) | Failed(failure: RefreshErrors.Failure)

  predicate SignsOut(outcome: RefreshOutcome) {
    outcome.Failed? && RefreshErrors.ShouldSignOut(outcome.failure)
  }

  /** An error ends the refresh, and signs the tab out if its status or message says so. */
  function Replied(tab: Tab, outcome: RefreshOutcome): Tab
    requires tab.refresh.AwaitingReply?
  {
    if outcome.Succeeded? then
      tab.(refresh := Saving(SnapshotFromTokenResponse(outcome.tr, Some(tab.refresh.prev))))
    else if SignsOut(outcome) then PeerSignedOut(tab).(refresh := Resting)
    else tab.(refresh := Resting)
  }

  function FinishRefresh(tab: Tab): Tab
    requires tab.refresh.Saved?
  {
    tab.(snapshot := Some(tab.refresh.next), refresh := Resting)
  }

  class SessionStorage {
    var stored: Option<Snapshot>

    constructor ()
      ensures stored == None
    {
      stored := None;
    }
  }

  /** The class AveSession; each method is the code between two of its awaits. */
  class Session {
    var snapshot: Option<Snapshot>
    var status: Status
    var hydrated: bool
    var refresh: RefreshPhase
    var write: WritePhase
    const storage: SessionStorage

    ghost function State(): Tab
      reads this
    {
      Tab(snapshot, status, hydrated, refresh, write)
    }

    constructor (storage: SessionStorage)
      ensures State() == NEW_TAB && this.storage == storage
    {
      this.storage := storage;
      snapshot, status, hydrated, refresh, write := None, SignedOut, false, Resting, NotWriting;
    }

    /** A load that throws signs the tab out. */
    method HydrateFromStorage(fails: bool)
      modifies this
      ensures State() == Hydrate(old(State()), if fails then None else storage.stored)
    {
      if hydrated {
        return;
      }
      if fails {
        snapshot := None;
        status := SignedOut;
      } else {
        snapshot := storage.stored;
        if snapshot.Some? {
          status := SignedIn;
        } else {
          status := SignedOut;
        }
      }
      hydrated := true;
    }

    method ReloadFromStorage()
      modifies this
      ensures State() == Reload(old(State()), storage.stored)
    {
      if storage.stored.Some? {
        snapshot := storage.stored;
        status := SignedIn;
      }
    }

    method ApplyPeerSignOut()
      modifies this
      ensures State() == PeerSignedOut(old(State()))
    {
      snapshot := None;
      status := SignedOut;
      hydrated := true;
    }

    method SetTokensFromResponse(tr: TokenResponse)
      requires write.NotWriting?
      modifies this`write
      ensures State() == BeginSetTokens(old(State()), tr)
    {
      var next := SnapshotFromTokenResponse(tr, snapshot);
      write := Writing(SettingTokens, Some(next));
    }

    /** throws when there is no snapshot */
    method SetAppKeyBase64(key: Option<string>) returns (thrown: bool)
      requires write.NotWriting?
      modifies this`write
      ensures thrown == snapshot.None?
      ensures State() == if thrown then old(State()) else BeginSetAppKey(old(State()), key)
    {
      if snapshot.None? {
        return true;
      }
      var next := snapshot.value.(appKey := key);
      write := Writing(SettingAppKey, Some(next));
      return false;
    }

    method SignOut()
      requires write.NotWriting?
      modifies this
      ensures State() == BeginSignOut(old(State()))
    {
      snapshot := None;
      write := Writing(SigningOut, None);
    }

    method SaveWrite()
      requires write.Writing?
      modifies this`write, storage
      ensures storage.stored == old(write.next)
      ensures State() == old(State()).(write := Written(old(write.kind), old(write.next)))
    {
      storage.stored := write.next;
      write := Written(write.kind, write.next);
    }

    method AfterWrite()
      requires write.Written?
      modifies this
      ensures State() == FinishWrite(old(State()))
    {
      match write.kind {
        case SettingTokens =>
          snapshot := write.next;
          hydrated := true;
          status := SignedIn;
        case SettingAppKey =>
          snapshot := write.next;
        case SigningOut =>
          status := SignedOut;
          hydrated := true;
      }
      write := NotWriting;
    }

    /** runRefresh once the lock is granted */
    method CaptureMemory()
      requires refresh.WaitingForLock?
      modifies this`refresh
      ensures State() == old(State()).(refresh := ReadingDisk(old(snapshot)))
    {
      refresh := ReadingDisk(snapshot);
    }

    /** A load that fails counts as an empty storage. */
    method LoadInsideLock(fails: bool)
      requires refresh.ReadingDisk?
      modifies this`refresh
      ensures State() == old(State()).(refresh := Deciding(old(refresh.mem), if fails then None else storage.stored))
    {
      var fromDisk := storage.stored;
      if fails {
        fromDisk := None;
      }
      refresh := Deciding(refresh.mem, fromDisk);
    }

    /** The comparison with the stored snapshot, and the request if one is sent. */
    method DecideRefresh(h: HandlerId) returns (token: Option<Token>)
      requires refresh.Deciding?
      modifies this, storage
      ensures token == (if Decide(old(State())).Present? then Some(Decide(old(State())).token) else None)
      ensures State() == Decided(old(State()), h)
      ensures storage.stored == if Decide(old(State())).GiveUp? then None else old(storage.stored)
    {
      var mem, fromDisk := refresh.mem, refresh.disk;
      if mem.Some? && fromDisk.Some? {
        var diskFresh := fromDisk.value.expiresAtMs > mem.value.expiresAtMs
          || (fromDisk.value.refreshToken.Some? && fromDisk.value.refreshToken != mem.value.refreshToken);
        if diskFresh {
          snapshot := Some(Merge(mem.value, fromDisk.value));
          status := SignedIn;
          refresh := Resting;
          return None;
        }
      }
      if snapshot.None? || snapshot.value.refreshToken.None? {
        snapshot := None;
        storage.stored := None;
        status := SignedOut;
        hydrated := true;
        refresh := Resting;
        return None;
      }
      refresh := AwaitingReply(h, snapshot.value);
      return snapshot.value.refreshToken;
    }

    method ReceiveReply(outcome: RefreshOutcome)
      requires refresh.AwaitingReply?
      modifies this, storage
      ensures State() == Replied(old(State()), outcome)
      ensures storage.stored == if SignsOut(outcome) then None else old(storage.stored)
    {
      if outcome.Succeeded? {
        refresh := Saving(SnapshotFromTokenResponse(outcome.tr, Some(refresh.prev)));
        return;
      }
      if RefreshErrors.ShouldSignOut(outcome.failure) {
        snapshot := None;
        storage.stored := None;
        status := SignedOut;
        hydrated := true;
      }
      refresh := Resting;
    }

    method SaveRefreshed()
      requires refresh.Saving?
      modifies this`refresh, storage
      ensures storage.stored == Some(old(refresh.next))
      ensures State() == old(State()).(refresh := Saved(old(refresh.next)))
    {
      storage.stored := Some(refresh.next);
      refresh := Saved(refresh.next);
    }

    method AfterRefresh()
      requires refresh.Saved?
      modifies this
      ensures State() == FinishRefresh(old(State()))
    {
      snapshot := Some(refresh.next);
      refresh := Resting;
    }
  }
}
