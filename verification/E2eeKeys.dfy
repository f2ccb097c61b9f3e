/**
 * The app encryption keys of one authorization: app-e2ee-auth.ts, the part of
 * routes/oauth/authorize.ts that stores and hands out keys, and app-key-recovery.ts.
 */
module E2eeKeys {
  import opened Options
  import opened E2eeScopes
  import opened OauthScopes
  import opened Rfc4648

  datatype Payload = Payload(
    encryptedAppKey: Option<string>,
    appPublicKey: Option<string>,
    encryptedAppPrivateKey: Option<string>)

  /** The key columns of a row of oauth_authorizations, and the key fields of an authorization code. */
  datatype Keys = Keys(
    encryptedAppKey: Option<string>,
    appPublicKey: Option<string>,
    encryptedAppPrivateKey: Option<string>,
    appEncryptionMode: Option<string>)

  const NO_KEYS: Keys := Keys(None, None, None, None)

  /** A JavaScript string counts as present unless it is undefined, null or empty. */
  predicate Present(s: Option<string>) {
    s.Some? && s.value != ""
  }

  const MAX_OPAQUE_BLOB_BYTES := 65536
  const MIN_OPAQUE_BLOB_BYTES := 12
  const MAX_PUBLIC_KEY_BLOB_BYTES := 16384
  const MIN_PUBLIC_KEY_BLOB_BYTES := 20

  predicate SizeOk(b64: string, least: nat, most: nat) {
    |b64| <= (most * 4 + 2) / 3 + 64
    && Atob(b64).Some? && least <= |Atob(b64).value| <= most
  }

  predicate ValidateOpaqueKeyEnvelope(b64: string) {
    SizeOk(b64, MIN_OPAQUE_BLOB_BYTES, MAX_OPAQUE_BLOB_BYTES)
  }

  predicate ValidatePublicKeyBlob(b64: string) {
    SizeOk(b64, MIN_PUBLIC_KEY_BLOB_BYTES, MAX_PUBLIC_KEY_BLOB_BYTES)
  }

  function ModeName(mode: E2eeMode): string {
    match mode
    case Symmetric => "symmetric"
    case Asymmetric => "asymmetric"
    case PqcKyber => "pqc_kyber"
    case PqcDilithium => "pqc_dilithium"
  }

  predicate IsImplementedE2eeMode(mode: E2eeMode) {
    mode.Symmetric? || mode.Asymmetric?
  }

  datatype Verdict = Accepted | Refused(error: string)

  /** A given value replaces nothing that is already there. */
  predicate Replaces(given: Option<string>, existing: Option<string>) {
    Present(given) && Present(existing) && given != existing
  }

  function ValidateReset(mode: E2eeMode, payload: Payload): Verdict {
    match mode
    case Symmetric =>
      if !Present(payload.encryptedAppKey) then Refused("E2EE reset requires a new encryptedAppKey")
      else if !ValidateOpaqueKeyEnvelope(payload.encryptedAppKey.value) then Refused("invalid envelope")
      else Accepted
    case Asymmetric =>
      if !Present(payload.appPublicKey) || !Present(payload.encryptedAppPrivateKey) then
        Refused("E2EE reset requires new appPublicKey and encryptedAppPrivateKey")
      else if !ValidatePublicKeyBlob(payload.appPublicKey.value) then Refused("invalid public key")
      else if !ValidateOpaqueKeyEnvelope(payload.encryptedAppPrivateKey.value) then Refused("invalid envelope")
      else Accepted
    case _ => Refused("Unsupported encryption mode")
  }

  function ValidateSymmetric(payload: Payload, existing: Keys): Verdict {
    if !Present(payload.encryptedAppKey) && !Present(existing.encryptedAppKey) then
      Refused("E2EE symmetric scope requires encryptedAppKey")
    else if Present(payload.encryptedAppKey) && !ValidateOpaqueKeyEnvelope(payload.encryptedAppKey.value) then
      Refused("invalid envelope")
    else if Replaces(payload.encryptedAppKey, existing.encryptedAppKey) then
      Refused("Replacing an existing app encryption key requires e2ee:reset")
    else Accepted
  }

  function ValidateAsymmetric(payload: Payload, existing: Keys): Verdict {
    var hasExisting := Present(existing.appPublicKey) && Present(existing.encryptedAppPrivateKey);
    if !hasExisting && (!Present(payload.appPublicKey) || !Present(payload.encryptedAppPrivateKey)) then
      Refused("E2EE asymmetric scope requires appPublicKey and encryptedAppPrivateKey")
    else if Present(payload.appPublicKey) && !ValidatePublicKeyBlob(payload.appPublicKey.value) then
      Refused("invalid public key")
    else if Replaces(payload.appPublicKey, existing.appPublicKey) then
      Refused("Replacing an existing app encryption keypair requires e2ee:reset")
    else if Present(payload.encryptedAppPrivateKey)
            && !ValidateOpaqueKeyEnvelope(payload.encryptedAppPrivateKey.value) then
      Refused("invalid envelope")
    else if Replaces(payload.encryptedAppPrivateKey, existing.encryptedAppPrivateKey) then
      Refused("Replacing an existing app encryption keypair requires e2ee:reset")
    else Accepted
  }

  /** validateE2eeAuthPayload; an absent authorization validates like one without keys. */
  function ValidateE2eeAuthPayload(mode: E2eeMode, payload: Payload, existing: Keys, reset: bool): Verdict {
    if !IsImplementedE2eeMode(mode) then Refused("Encryption mode is not available yet")
    else if reset then ValidateReset(mode, payload)
    else if Present(existing.appEncryptionMode) && existing.appEncryptionMode.value != ModeName(mode) then
      Refused("Changing an existing app encryption mode requires e2ee:reset")
    else if mode.Symmetric? then ValidateSymmetric(payload, existing)
    else ValidateAsymmetric(payload, existing)
  }

  function OrElse(a: Option<string>, b: Option<string>): Option<string> {
    if a.Some? then a else b
  }

  /** buildE2eeAuthUpdate, applied: the fields it leaves out keep their values. */
  function ApplyE2eeAuthUpdate(mode: E2eeMode, payload: Payload, existing: Keys, reset: bool, row: Keys): Keys {
    match mode
    case Symmetric =>
      if reset then Keys(payload.encryptedAppKey, None, None, Some("symmetric"))
      else row.(encryptedAppKey := OrElse(existing.encryptedAppKey, payload.encryptedAppKey),
                appEncryptionMode := Some("symmetric"))
    case Asymmetric =>
      if reset then Keys(None, payload.appPublicKey, payload.encryptedAppPrivateKey, Some("asymmetric"))
      else row.(appPublicKey := OrElse(existing.appPublicKey, payload.appPublicKey),
                encryptedAppPrivateKey := OrElse(existing.encryptedAppPrivateKey, payload.encryptedAppPrivateKey),
                appEncryptionMode := Some("asymmetric"))
    case _ => row.(appEncryptionMode := Some(ModeName(mode)))
  }

  /** An authorization request as far as it concerns encryption. */
  datatype Request = Request(requested: seq<string>, supportsE2ee: bool, allowed: seq<string>, payload: Payload)

  ghost function Resolve(request: Request, existing: Keys): Resolution {
    ServerResolution(request.requested, request.supportsE2ee, request.allowed,
                     if existing.appEncryptionMode.Some? then existing.appEncryptionMode.value else "")
  }

  /** The checks that come before anything is written. */
  function CheckRequest(r: Resolution, payload: Payload, existing: Keys): Verdict {
    if r.conflict then Refused("Request only one E2EE encryption mode per authorization")
    else if r.reset && r.mode.None? then
      Refused("e2ee:reset requires an encryption mode or an existing app encryption setup")
    else if r.mode.Some? then ValidateE2eeAuthPayload(r.mode.value, payload, existing, r.reset)
    else Accepted
  }

  function UpdatedRow(r: Resolution, payload: Payload, existing: Keys, row: Keys): Keys {
    if r.mode.Some? then ApplyE2eeAuthUpdate(r.mode.value, payload, existing, r.reset, row) else row
  }

  /** `(resets ? given : existing || given) || undefined` */
  function HandedOut(reset: bool, given: Option<string>, existing: Option<string>): Option<string> {
    var value := if reset || !Present(existing) then given else existing;
    if Present(value) then value else None
  }

  /** The key fields of the code; existing is the row as it was read before the write. */
  function CodeKeys(r: Resolution, payload: Payload, existing: Keys): Keys {
    Keys(HandedOut(r.reset, payload.encryptedAppKey, existing.encryptedAppKey),
         HandedOut(r.reset, payload.appPublicKey, existing.appPublicKey),
         HandedOut(r.reset, payload.encryptedAppPrivateKey, existing.encryptedAppPrivateKey),
         if r.mode.Some? then Some(ModeName(r.mode.value))
         else if Present(existing.appEncryptionMode) then existing.appEncryptionMode
         else None)
  }

  type RowId = nat
  type HandlerId = nat

  /** The row of one user, app and identity; a row that is inserted again has a new id. */
  datatype Row = Row(id: RowId, keys: Keys)

  /** What a request resolved to, and the keys it sent. */
  datatype Decided = Decided(resolution: Resolution, payload: Payload)

  /** A handler names its next statement; an update and a recovery remember the row they read. */
  datatype Handler =
    | Inserting(decided: Decided)
    | Rereading(decided: Decided)
    | Updating(id: RowId, decided: Decided, read: Keys)
    | Recovering(id: RowId, key: string)

  datatype State = State(row: Option<Row>, handlers: map<HandlerId, Handler>, used: set<RowId>)

  const START: State := State(None, map[], {})

  datatype Event =
    | Begin(h: HandlerId, request: Request)
    | Insert(h: HandlerId, id: RowId)
    | Reread(h: HandlerId)
    | Update(h: HandlerId)
    | BeginRecovery(h: HandlerId, key: string)
    | FinishRecovery(h: HandlerId)
    | Revoke

  /** What the first select finds; an absent row validates like one without keys. */
  function RowRead(s: State): Keys {
    if s.row.Some? then s.row.value.keys else NO_KEYS
  }

  /** Handler ids and generated row ids are new. */
  predicate Enabled(s: State, e: Event) {
    match e
    case Begin(h, _) => h !in s.handlers
    case Insert(h, id) => h in s.handlers && s.handlers[h].Inserting? && id !in s.used
    case Reread(h) => h in s.handlers && s.handlers[h].Rereading?
    case Update(h) => h in s.handlers && s.handlers[h].Updating?
    case BeginRecovery(h, _) => h !in s.handlers
    case FinishRecovery(h) => h in s.handlers && s.handlers[h].Recovering?
    case Revoke => true
  }

  /** The select and the checks of POST /authorize. */
  ghost function BeginStep(s: State, h: HandlerId, request: Request): State {
    var read := RowRead(s);
    var r := Resolve(request, read);
    if CheckRequest(r, request.payload, read).Refused? then s
    else
      var decided := Decided(r, request.payload);
      s.(handlers := s.handlers[h := if s.row.Some? then Updating(s.row.value.id, decided, read) else Inserting(decided)])
  }

  function NewKeys(decided: Decided): Keys {
    UpdatedRow(decided.resolution, decided.payload, NO_KEYS, NO_KEYS)
  }

  /** insert ... on conflict do nothing */
  function InsertStep(s: State, h: HandlerId, id: RowId): State
    requires h in s.handlers && s.handlers[h].Inserting?
  {
    var decided := s.handlers[h].decided;
    if s.row.Some? then s.(handlers := s.handlers[h := Rereading(decided)])
    else State(Some(Row(id, NewKeys(decided))), s.handlers - {h}, s.used + {id})
  }

  /** After a conflict the row is read again, and the request validated against it under its first resolution. */
  function RereadStep(s: State, h: HandlerId): State
    requires h in s.handlers && s.handlers[h].Rereading?
  {
    var decided := s.handlers[h].decided;
    var r := decided.resolution;
    if s.row.None? || (r.mode.Some?
         && ValidateE2eeAuthPayload(r.mode.value, decided.payload, s.row.value.keys, r.reset).Refused?)
    then s.(handlers := s.handlers - {h})
    else s.(handlers := s.handlers[h := Updating(s.row.value.id, decided, s.row.value.keys)])
  }

  /** The update by id, which writes what was decided against the row as it was read. */
  function UpdateStep(s: State, h: HandlerId): State
    requires h in s.handlers && s.handlers[h].Updating?
  {
    var u := s.handlers[h];
    State(if s.row.Some? && s.row.value.id == u.id
          then Some(Row(u.id, UpdatedRow(u.decided.resolution, u.decided.payload, u.read, s.row.value.keys))) else s.row,
          s.handlers - {h}, s.used)
  }

  predicate RecoveryAllowed(row: Keys, encryptedAppKey: string) {
    ValidateOpaqueKeyEnvelope(encryptedAppKey)
    && (Present(row.appEncryptionMode) ==> row.appEncryptionMode.value == "symmetric")
  }

  function BeginRecoveryStep(s: State, h: HandlerId, key: string): State {
    if s.row.Some? && RecoveryAllowed(s.row.value.keys, key)
    then s.(handlers := s.handlers[h := Recovering(s.row.value.id, key)])
    else s
  }

  function FinishRecoveryStep(s: State, h: HandlerId): State
    requires h in s.handlers && s.handlers[h].Recovering?
  {
    var u := s.handlers[h];
    State(if s.row.Some? && s.row.value.id == u.id then Some(Row(u.id, Keys(Some(u.key), None, None, Some("symmetric"))))
          else s.row,
          s.handlers - {h}, s.used)
  }

  ghost function StepOnce(s: State, e: Event): State
    requires Enabled(s, e)
  {
    match e
    case Begin(h, request) => BeginStep(s, h, request)
    case Insert(h, id) => InsertStep(s, h, id)
    case Reread(h) => RereadStep(s, h)
    case Update(h) => UpdateStep(s, h)
    case BeginRecovery(h, key) => BeginRecoveryStep(s, h, key)
    case FinishRecovery(h) => FinishRecoveryStep(s, h)
    case Revoke => s.(row := None)
  }

  /** An event that cannot happen leaves the state alone, so every list of events is a run. */
  ghost function Step(s: State, e: Event): State {
    if Enabled(s, e) then StepOnce(s, e) else s
  }

  ghost function Run(s: State, events: seq<Event>): State
    decreases |events|
  {
    if events == [] then s else Run(Step(s, events[0]), events[1..])
  }

  /** The mode says which keys are there, and no key is the empty string. */
  predicate WellFormed(k: Keys) {
    || k == NO_KEYS
    || (k.appEncryptionMode == Some("symmetric") && Present(k.encryptedAppKey)
        && k.appPublicKey == None && k.encryptedAppPrivateKey == None)
    || (k.appEncryptionMode == Some("asymmetric") && k.encryptedAppKey == None
        && Present(k.appPublicKey) && Present(k.encryptedAppPrivateKey))
  }

  predicate DecidedFor(decided: Decided, keys: Keys) {
    WellFormed(keys) && CheckRequest(decided.resolution, decided.payload, keys).Accepted?
  }

  /** A handler goes on only after the checks accepted its request against the row it read. */
  predicate HandlerOk(handler: Handler, used: set<RowId>) {
    match handler
    case Inserting(decided) => DecidedFor(decided, NO_KEYS)
    case Rereading(decided) => DecidedFor(decided, NO_KEYS)
    case Updating(id, decided, read) => id in used && DecidedFor(decided, read)
    case Recovering(id, key) => id in used && Present(Some(key))
  }

  predicate StateOk(s: State) {
    && (s.row.Some? ==> WellFormed(s.row.value.keys) && s.row.value.id in s.used)
    && forall h :: h in s.handlers ==> HandlerOk(s.handlers[h], s.used)
  }

  /** The row an update is about to write to, if it is still the one that was read. */
  predicate Meets(s: State, e: Event) {
    e.Update? && Enabled(s, e) && s.row.Some? && s.row.value.id == s.handlers[e.h].id
  }

  /** An update without a reset meets no row of the other mode. */
  predicate MeetsItsMode(s: State, e: Event) {
    Meets(s, e) ==>
      var r, mode := s.handlers[e.h].decided.resolution, s.row.value.keys.appEncryptionMode;
      r.reset || r.mode.None? || mode.None? || mode == Some(ModeName(r.mode.value))
  }

  lemma AcceptedUpdateIsWellFormed(r: Resolution, payload: Payload, existing: Keys)
    requires WellFormed(existing) && CheckRequest(r, payload, existing).Accepted?
    ensures WellFormed(UpdatedRow(r, payload, existing, existing))
  {
    hide ValidateOpaqueKeyEnvelope, ValidatePublicKeyBlob;
  }

  /** A write decided against an older reading leaves the row well formed exactly when it does not meet the other mode. */
  lemma StaleWriteIsWellFormedExactly(r: Resolution, payload: Payload, read: Keys, row: Keys)
    requires WellFormed(read) && WellFormed(row) && CheckRequest(r, payload, read).Accepted?
    ensures WellFormed(UpdatedRow(r, payload, read, row)) <==>
            r.reset || r.mode.None? || row.appEncryptionMode.None? || row.appEncryptionMode == Some(ModeName(r.mode.value))
  {
    hide ValidateOpaqueKeyEnvelope, ValidatePublicKeyBlob;
  }

  /** The second of two first authorizations is either refused or accepted against the row it met. */
  lemma FirstMeetsRow(decided: Decided, keys: Keys)
    requires DecidedFor(decided, NO_KEYS) && WellFormed(keys)
    requires var r := decided.resolution;
             r.mode.Some? ==> ValidateE2eeAuthPayload(r.mode.value, decided.payload, keys, r.reset).Accepted?
    ensures DecidedFor(decided, keys)
  {
  }

  lemma RecoveredKeyIsPresent(key: string)
    ensures ValidateOpaqueKeyEnvelope(key) ==> Present(Some(key))
  {
    assert |Atob("").value| == 0;
  }

  lemma EmptyIsWellFormed()
    ensures WellFormed(NO_KEYS)
  {
  }

  /** Every step but an update that meets the other mode keeps the row well formed, and such an update never does. */
  lemma StepKeepsOkExactly(s: State, e: Event)
    requires StateOk(s)
    ensures StateOk(Step(s, e)) <==> MeetsItsMode(s, e)
  {
    hide CheckRequest, UpdatedRow, ValidateOpaqueKeyEnvelope, Resolve, WellFormed, ValidateE2eeAuthPayload;
    EmptyIsWellFormed();
    if Enabled(s, e) {
      match e
      case Insert(h, id) =>
        var decided := s.handlers[h].decided;
        AcceptedUpdateIsWellFormed(decided.resolution, decided.payload, NO_KEYS);
      case Reread(h) =>
        if s.row.Some? && RereadStep(s, h) != s.(handlers := s.handlers - {h}) {
          FirstMeetsRow(s.handlers[h].decided, s.row.value.keys);
        }
      case Update(h) =>
        var u := s.handlers[h];
        StaleWriteIsWellFormedExactly(u.decided.resolution, u.decided.payload, u.read, RowRead(s));
      case BeginRecovery(h, key) => RecoveredKeyIsPresent(key);
      case FinishRecovery(h) => SymmetricIsWellFormed(s.handlers[h].key);
      case _ =>
    }
  }

  lemma SymmetricIsWellFormed(key: string)
    requires Present(Some(key))
    ensures WellFormed(Keys(Some(key), None, None, Some("symmetric")))
  {
  }

  /** What is set stays as it is. */
  predicate Keeps(k: Keys, next: Keys) {
    && (k.encryptedAppKey.Some? ==> next.encryptedAppKey == k.encryptedAppKey)
    && (k.appPublicKey.Some? ==> next.appPublicKey == k.appPublicKey)
    && (k.encryptedAppPrivateKey.Some? ==> next.encryptedAppPrivateKey == k.encryptedAppPrivateKey)
    && (k.appEncryptionMode.Some? ==> next.appEncryptionMode == k.appEncryptionMode)
  }

  ghost predicate MeetingRun(s: State, events: seq<Event>)
    decreases |events|
  {
    events == [] || (MeetsItsMode(s, events[0]) && MeetingRun(Step(s, events[0]), events[1..]))
  }

  ghost predicate OkThroughout(s: State, events: seq<Event>)
    decreases |events|
  {
    StateOk(s) && (events == [] || OkThroughout(Step(s, events[0]), events[1..]))
  }

  /** A run keeps the row well formed throughout exactly when none of its updates meets the other mode. */
  lemma {:induction false} OkThroughoutExactly(s: State, events: seq<Event>)
    requires StateOk(s)
    ensures OkThroughout(s, events) <==> MeetingRun(s, events)
    ensures MeetingRun(s, events) ==> StateOk(Run(s, events))
    decreases |events|
  {
    hide StateOk, Step, MeetsItsMode;
    if events != [] {
      StepKeepsOkExactly(s, events[0]);
      if StateOk(Step(s, events[0])) {
        OkThroughoutExactly(Step(s, events[0]), events[1..]);
      }
    }
  }

  /** The stored mode says exactly which keys are stored, in every run whose updates meet their own mode. */
  lemma ModeSaysWhichKeys(events: seq<Event>)
    requires MeetingRun(START, events) && Run(START, events).row.Some?
    ensures var k := Run(START, events).row.value.keys;
            && (k.appEncryptionMode == Some("symmetric") <==>
                  k.encryptedAppKey.Some? && k.appPublicKey.None? && k.encryptedAppPrivateKey.None?)
            && (k.appEncryptionMode == Some("asymmetric") <==>
                  k.encryptedAppKey.None? && k.appPublicKey.Some? && k.encryptedAppPrivateKey.Some?)
            && (k.appEncryptionMode == None <==>
                  k.encryptedAppKey.None? && k.appPublicKey.None? && k.encryptedAppPrivateKey.None?)
  {
    hide Run, MeetingRun, MeetsItsMode;
    assert StateOk(START);
    OkThroughoutExactly(START, events);
  }

  /** A row that was read with keys still has keys. */
  ghost predicate NothingVanished(s: State) {
    forall h :: Meets(s, Update(h)) && s.handlers[h].read != NO_KEYS ==> s.row.value.keys != NO_KEYS
  }

  lemma UpdateLeavesKeys(r: Resolution, payload: Payload, read: Keys, row: Keys)
    requires WellFormed(read) && WellFormed(row) && CheckRequest(r, payload, read).Accepted?
    ensures row != NO_KEYS ==> UpdatedRow(r, payload, read, row) != NO_KEYS
  {
    hide ValidateOpaqueKeyEnvelope, ValidatePublicKeyBlob;
  }

  lemma StepKeepsNothingVanished(s: State, e: Event)
    requires StateOk(s) && NothingVanished(s)
    ensures NothingVanished(Step(s, e))
  {
    hide CheckRequest, UpdatedRow, ValidateOpaqueKeyEnvelope, Resolve, WellFormed, ValidateE2eeAuthPayload;
    if Enabled(s, e) && e.Update? {
      var u := s.handlers[e.h];
      assert HandlerOk(u, s.used);
      EmptyIsWellFormed();
      UpdateLeavesKeys(u.decided.resolution, u.decided.payload, u.read, RowRead(s));
    }
  }

  /** Neither a reset nor a recovery nor a revocation. */
  predicate Ordinary(s: State, e: Event) {
    !e.FinishRecovery? && !e.Revoke? && !(Meets(s, e) && s.handlers[e.h].decided.resolution.reset)
  }

  ghost predicate OrdinaryRun(s: State, events: seq<Event>)
    decreases |events|
  {
    events == [] || (Ordinary(s, events[0]) && OrdinaryRun(Step(s, events[0]), events[1..]))
  }

  /** What an update read has not changed since, and the checks would accept its request against the row it meets. */
  predicate StillAccepted(decided: Decided, read: Keys, row: Keys) {
    decided.resolution.mode.None?
    || (Keeps(read, row) && CheckRequest(decided.resolution, decided.payload, row).Accepted?)
  }

  predicate Current(s: State, e: Event) {
    Meets(s, e) ==> StillAccepted(s.handlers[e.h].decided, s.handlers[e.h].read, s.row.value.keys)
  }

  ghost predicate CurrentRun(s: State, events: seq<Event>)
    decreases |events|
  {
    events == [] || (Current(s, events[0]) && CurrentRun(Step(s, events[0]), events[1..]))
  }

  lemma StaleSymmetricKeepsExactly(decided: Decided, read: Keys, row: Keys)
    requires DecidedFor(decided, read) && WellFormed(row) && !decided.resolution.reset
    requires decided.resolution.mode == Some(Symmetric) && (read != NO_KEYS ==> row != NO_KEYS)
    ensures Keeps(row, UpdatedRow(decided.resolution, decided.payload, read, row)) <==> StillAccepted(decided, read, row)
  {
    hide ValidateOpaqueKeyEnvelope, ValidateAsymmetric, ValidateReset;
  }

  lemma StaleAsymmetricKeepsExactly(decided: Decided, read: Keys, row: Keys)
    requires DecidedFor(decided, read) && WellFormed(row) && !decided.resolution.reset
    requires decided.resolution.mode == Some(Asymmetric) && (read != NO_KEYS ==> row != NO_KEYS)
    ensures Keeps(row, UpdatedRow(decided.resolution, decided.payload, read, row)) <==> StillAccepted(decided, read, row)
  {
    hide ValidateOpaqueKeyEnvelope, ValidatePublicKeyBlob, ValidateSymmetric, ValidateReset;
    if row == NO_KEYS {
      assert read == NO_KEYS;
    } else if row.appEncryptionMode == Some("symmetric") {
      assert "symmetric" != "asymmetric";
    } else {
      assert row.appEncryptionMode == Some("asymmetric");
    }
  }

  /** Two updates of one row may interleave: a write decided against an older reading keeps what is stored
      exactly when that reading still holds and the checks would accept the request against the row it meets. */
  lemma StaleWriteKeepsExactly(decided: Decided, read: Keys, row: Keys)
    requires DecidedFor(decided, read) && WellFormed(row) && !decided.resolution.reset
    requires read != NO_KEYS ==> row != NO_KEYS
    ensures Keeps(row, UpdatedRow(decided.resolution, decided.payload, read, row)) <==> StillAccepted(decided, read, row)
  {
    hide ValidateSymmetric, ValidateAsymmetric, ValidateReset, WellFormed;
    if decided.resolution.mode == Some(Symmetric) {
      StaleSymmetricKeepsExactly(decided, read, row);
    } else if decided.resolution.mode == Some(Asymmetric) {
      StaleAsymmetricKeepsExactly(decided, read, row);
    }
  }

  ghost predicate KeepsThroughout(s: State, events: seq<Event>)
    decreases |events|
  {
    events == [] ||
    var next := Step(s, events[0]);
    && (s.row.Some? ==> next.row.Some? && Keeps(s.row.value.keys, next.row.value.keys))
    && KeepsThroughout(next, events[1..])
  }

  lemma OrdinaryStepKeepsExactly(s: State, e: Event)
    requires StateOk(s) && NothingVanished(s) && Ordinary(s, e)
    ensures (s.row.Some? ==> Step(s, e).row.Some? && Keeps(s.row.value.keys, Step(s, e).row.value.keys)) <==> Current(s, e)
    ensures Current(s, e) ==> MeetsItsMode(s, e)
  {
    hide CheckRequest, UpdatedRow, ValidateOpaqueKeyEnvelope, Resolve, WellFormed, ValidateE2eeAuthPayload, StillAccepted;
    if Meets(s, e) {
      var u := s.handlers[e.h];
      assert HandlerOk(u, s.used);
      StaleWriteKeepsExactly(u.decided, u.read, s.row.value.keys);
      if Current(s, e) {
        AcceptedMeetsItsMode(u.decided, u.read, s.row.value.keys);
      }
    }
  }

  lemma AcceptedMeetsItsMode(decided: Decided, read: Keys, row: Keys)
    requires WellFormed(row) && StillAccepted(decided, read, row) && !decided.resolution.reset
    ensures var r, mode := decided.resolution, row.appEncryptionMode;
            r.mode.None? || mode.None? || mode == Some(ModeName(r.mode.value))
  {
  }

  /** Between resets, recoveries and revocations every step keeps the keys and the mode that are set exactly when
      every update is decided on a reading that still holds and would be accepted against the row it meets. */
  lemma {:induction false} WriteOnceExactly(s: State, events: seq<Event>)
    requires StateOk(s) && NothingVanished(s) && OrdinaryRun(s, events)
    ensures KeepsThroughout(s, events) <==> CurrentRun(s, events)
    decreases |events|
  {
    hide StateOk, NothingVanished, Step, Ordinary, Current, Keeps, MeetsItsMode;
    if events != [] {
      OrdinaryStepKeepsExactly(s, events[0]);
      if Current(s, events[0]) {
        StepKeepsOkExactly(s, events[0]);
        StepKeepsNothingVanished(s, events[0]);
        WriteOnceExactly(Step(s, events[0]), events[1..]);
      }
    }
  }

  /** Then set keys and modes never change. */
  lemma {:induction false} KeysAreWriteOnce(s: State, events: seq<Event>)
    requires StateOk(s) && NothingVanished(s) && s.row.Some? && OrdinaryRun(s, events) && CurrentRun(s, events)
    ensures Run(s, events).row.Some? && Keeps(s.row.value.keys, Run(s, events).row.value.keys)
    decreases |events|
  {
    hide StateOk, NothingVanished, Step, Ordinary, Current, MeetsItsMode;
    if events != [] {
      OrdinaryStepKeepsExactly(s, events[0]);
      StepKeepsOkExactly(s, events[0]);
      StepKeepsNothingVanished(s, events[0]);
      KeysAreWriteOnce(Step(s, events[0]), events[1..]);
    }
  }

  predicate NoStray(given: Option<string>, stored: Option<string>) {
    Present(given) ==> stored.Some?
  }

  predicate NoStrays(payload: Payload, row: Keys) {
    && NoStray(payload.encryptedAppKey, row.encryptedAppKey)
    && NoStray(payload.appPublicKey, row.appPublicKey)
    && NoStray(payload.encryptedAppPrivateKey, row.encryptedAppPrivateKey)
  }

  /** The code carries the row's keys of the resolved mode. */
  predicate Carries(mode: Option<E2eeMode>, code: Keys, row: Keys) {
    && code.appEncryptionMode == row.appEncryptionMode
    && (mode == Some(Symmetric) ==> code.encryptedAppKey.Some? && code.encryptedAppKey == row.encryptedAppKey)
    && (mode == Some(Asymmetric) ==>
          && code.appPublicKey.Some? && code.appPublicKey == row.appPublicKey
          && code.encryptedAppPrivateKey.Some? && code.encryptedAppPrivateKey == row.encryptedAppPrivateKey)
  }

  /** The keys of the code a statement hands out: with the insert, or with the update, even of a row that is gone. */
  function CodeOf(s: State, e: Event): Option<Keys> {
    if !Enabled(s, e) then None
    else
      match e
      case Insert(h, _) =>
        if s.row.Some? then None
        else Some(CodeKeys(s.handlers[h].decided.resolution, s.handlers[h].decided.payload, NO_KEYS))
      case Update(h) =>
        var u := s.handlers[h];
        Some(CodeKeys(u.decided.resolution, u.decided.payload, u.read))
      case _ => None
  }

  /** For the resolved mode the code of a write carries the keys that are stored after it, even if the row had
      changed since it was read; a request without a mode carries the mode that was read. */
  lemma CodeOfWrite(decided: Decided, read: Keys, row: Keys)
    requires DecidedFor(decided, read) && WellFormed(row)
    ensures var r, payload := decided.resolution, decided.payload;
            Carries(r.mode, CodeKeys(r, payload, read), UpdatedRow(r, payload, read, row))
            <==> r.mode.Some? || read.appEncryptionMode == row.appEncryptionMode
  {
    hide ValidateOpaqueKeyEnvelope, ValidatePublicKeyBlob;
  }

  lemma CodeOfReset(decided: Decided, existing: Keys)
    requires DecidedFor(decided, existing) && decided.resolution.reset
    ensures var r, payload := decided.resolution, decided.payload;
            var row := UpdatedRow(r, payload, existing, existing);
            CodeKeys(r, payload, existing) == row <==> NoStrays(payload, row)
  {
    hide ValidateOpaqueKeyEnvelope, ValidatePublicKeyBlob;
  }

  lemma CodeOfSymmetric(decided: Decided, existing: Keys)
    requires DecidedFor(decided, existing) && !decided.resolution.reset && decided.resolution.mode == Some(Symmetric)
    ensures var r, payload := decided.resolution, decided.payload;
            var row := UpdatedRow(r, payload, existing, existing);
            CodeKeys(r, payload, existing) == row <==> NoStrays(payload, row)
  {
    hide ValidateOpaqueKeyEnvelope, ValidatePublicKeyBlob;
  }

  lemma CodeOfAsymmetric(decided: Decided, existing: Keys)
    requires DecidedFor(decided, existing) && !decided.resolution.reset && decided.resolution.mode != Some(Symmetric)
    ensures var r, payload := decided.resolution, decided.payload;
            var row := UpdatedRow(r, payload, existing, existing);
            CodeKeys(r, payload, existing) == row <==> NoStrays(payload, row)
  {
    hide ValidateOpaqueKeyEnvelope, ValidatePublicKeyBlob;
  }

  /** The row a statement's code was made from, and the request. */
  function BasisOf(s: State, e: Event): Keys
    requires CodeOf(s, e).Some?
  {
    if e.Update? then s.handlers[e.h].read else NO_KEYS
  }

  /** A code that is handed out with a stored row carries the row's keys for the resolved mode, exactly when a mode
      was resolved or the stored mode is the one that was read; if the row is as it was read, the code equals it in
      every field exactly when the request sent no key the row did not take. */
  lemma CodeCarriesTheRowsKeys(s: State, e: Event)
    requires StateOk(s) && CodeOf(s, e).Some? && (e.Update? ==> Meets(s, e))
    ensures var code, next, decided := CodeOf(s, e).value, Step(s, e), s.handlers[e.h].decided;
            && next.row.Some?
            && (Carries(decided.resolution.mode, code, next.row.value.keys)
                <==> decided.resolution.mode.Some? || BasisOf(s, e).appEncryptionMode == RowRead(s).appEncryptionMode)
            && (BasisOf(s, e) == RowRead(s) ==>
                  (code == next.row.value.keys <==> NoStrays(decided.payload, next.row.value.keys)))
  {
    hide CheckRequest, ValidateOpaqueKeyEnvelope, Resolve, WellFormed, ValidateE2eeAuthPayload, Carries, NoStrays,
         UpdatedRow, CodeKeys;
    var decided, read := s.handlers[e.h].decided, BasisOf(s, e);
    assert HandlerOk(s.handlers[e.h], s.used) && DecidedFor(decided, read);
    EmptyIsWellFormed();
    CodeOfWrite(decided, read, RowRead(s));
    if decided.resolution.reset {
      CodeOfReset(decided, read);
    } else if decided.resolution.mode == Some(Symmetric) {
      CodeOfSymmetric(decided, read);
    } else {
      CodeOfAsymmetric(decided, read);
    }
  }

  /** The row and the handlers that insert, update and read it; every method is one statement. */
  class Authorization {
    var row: Option<Row>
    var handlers: map<HandlerId, Handler>
    ghost var used: set<RowId>

    ghost function Current(): State
      reads this
    {
      State(row, handlers, used)
    }

    constructor ()
      ensures Current() == START
    {
      row, handlers, used := None, map[], {};
    }

    method ResolveRequest(request: Request, existing: Keys) returns (r: Resolution)
      ensures r == Resolve(request, existing)
    {
      var stored := if existing.appEncryptionMode.Some? then existing.appEncryptionMode.value else "";
      r := ResolveOnServer(request.requested, request.supportsE2ee, request.allowed, stored);
    }

    /** POST /authorize: the select, the checks, and what is to be written. */
    method SelectAuthorization(h: HandlerId, request: Request) returns (accepted: bool)
      requires h !in handlers
      modifies this`handlers
      ensures Current() == StepOnce(old(Current()), Begin(h, request))
      ensures accepted <==> h in handlers
    {
      hide Resolve, CheckRequest;
      var existing := NO_KEYS;
      if row.Some? {
        existing := row.value.keys;
      }
      var r := ResolveRequest(request, existing);
      accepted := CheckRequest(r, request.payload, existing).Accepted?;
      if accepted {
        var decided := Decided(r, request.payload);
        if row.Some? {
          handlers := handlers[h := Updating(row.value.id, decided, existing)];
        } else {
          handlers := handlers[h := Inserting(decided)];
        }
      }
    }

    /** The insert that does nothing on conflict, and the code if it inserted. */
    method InsertAuthorization(h: HandlerId, id: RowId) returns (code: Option<Keys>)
      requires h in handlers && handlers[h].Inserting? && id !in used
      modifies this
      ensures Current() == StepOnce(old(Current()), Insert(h, id))
      ensures code == CodeOf(old(Current()), Insert(h, id))
    {
      hide UpdatedRow, CodeKeys;
      var decided := handlers[h].decided;
      if row.Some? {
        handlers := handlers[h := Rereading(decided)];
        return None;
      }
      row := Some(Row(id, UpdatedRow(decided.resolution, decided.payload, NO_KEYS, NO_KEYS)));
      handlers := handlers - {h};
      used := used + {id};
      return Some(CodeKeys(decided.resolution, decided.payload, NO_KEYS));
    }

    /** The second select, after a conflict. */
    method SelectConcurrent(h: HandlerId)
      requires h in handlers && handlers[h].Rereading?
      modifies this`handlers
      ensures Current() == StepOnce(old(Current()), Reread(h))
    {
      hide ValidateE2eeAuthPayload;
      var decided := handlers[h].decided;
      var r := decided.resolution;
      if row.None? {
        handlers := handlers - {h};
        return;
      }
      var existing := row.value.keys;
      if r.mode.Some? && ValidateE2eeAuthPayload(r.mode.value, decided.payload, existing, r.reset).Refused? {
        handlers := handlers - {h};
        return;
      }
      handlers := handlers[h := Updating(row.value.id, decided, existing)];
    }

    /** The update by id, in one batch with the code. */
    method UpdateAuthorization(h: HandlerId) returns (code: Keys)
      requires h in handlers && handlers[h].Updating?
      modifies this
      ensures Current() == StepOnce(old(Current()), Update(h))
      ensures Some(code) == CodeOf(old(Current()), Update(h))
    {
      hide UpdatedRow, CodeKeys;
      var u := handlers[h];
      var r, payload := u.decided.resolution, u.decided.payload;
      if row.Some? && row.value.id == u.id {
        row := Some(Row(u.id, UpdatedRow(r, payload, u.read, row.value.keys)));
      }
      handlers := handlers - {h};
      code := CodeKeys(r, payload, u.read);
    }

    /** PUT /authorization/:clientId/encryption-key: the select and its checks. */
    method SelectForRecovery(h: HandlerId, encryptedAppKey: string)
      requires h !in handlers
      modifies this`handlers
      ensures Current() == StepOnce(old(Current()), BeginRecovery(h, encryptedAppKey))
      ensures h in handlers <==> row.Some? && RecoveryAllowed(row.value.keys, encryptedAppKey)
    {
      hide ValidateOpaqueKeyEnvelope;
      if row.Some? && RecoveryAllowed(row.value.keys, encryptedAppKey) {
        handlers := handlers[h := Recovering(row.value.id, encryptedAppKey)];
      }
    }

    method UpdateRecovered(h: HandlerId)
      requires h in handlers && handlers[h].Recovering?
      modifies this
      ensures Current() == StepOnce(old(Current()), FinishRecovery(h))
    {
      var u := handlers[h];
      if row.Some? && row.value.id == u.id {
        row := Some(Row(u.id, Keys(Some(u.key), None, None, Some("symmetric"))));
      }
      handlers := handlers - {h};
    }

    method RevokeAuthorization()
      modifies this`row
      ensures Current() == StepOnce(old(Current()), Revoke)
    {
      row := None;
    }
  }

  const NOTHING: Payload := Payload(None, None, None)
  const PLAIN: Request := Request([], false, [], NOTHING)
  const PLAIN_ROW: Row := Row(0, NO_KEYS)

  /** A request of an app that supports encryption and lists no E2EE scope. */
  function LegacyRequest(key: string): Request {
    Request([], true, [], Payload(Some(key), None, None))
  }

  function KeyPairRequest(publicKey: string, privateKey: string): Request {
    Request(["e2ee:asymmetric"], true, [], Payload(None, Some(publicKey), Some(privateKey)))
  }

  lemma RequestsResolve(existing: Keys, key: string, publicKey: string, privateKey: string)
    requires existing == NO_KEYS
    ensures Resolve(PLAIN, existing) == Resolution(None, false, false)
    ensures Resolve(LegacyRequest(key), existing) == Resolution(Some(Symmetric), false, false)
    ensures Resolve(KeyPairRequest(publicKey, privateKey), existing) == Resolution(Some(Asymmetric), false, false)
  {
    assert RequestedModes([]) == {};
    var scope := "e2ee:asymmetric";
    assert NormalizeScopeToken(scope) == scope;
    assert ModeOfScope(scope) == Some(Asymmetric) && !IsE2eeResetScope(scope);
    assert [scope][0] == scope;
    assert RequestedModes([scope]) == {Asymmetric};
  }

  lemma {:induction false} ValidText(s: string)
    requires forall i :: 0 <= i < |s| ==> StandardIndex(s[i]).Some?
    ensures StandardIndexes(s).Some? && |StandardIndexes(s).value| == |s|
  {
    if s != "" {
      ValidText(s[1..]);
    }
  }

  function SampleKey(c: char): string {
    seq(32, i => c)
  }

  lemma NothingDropped(s: string)
    requires |s| > 0 && s[|s| - 1] != '='
    ensures DropPadding(s) == s
  {
    if |s| > 1 {
      assert s[|s| - 2..][1] == s[|s| - 1] && "=="[1] == '=';
    }
  }

  lemma WholeBytesOf(bits: seq<bool>, n: nat)
    requires |bits| == 8 * n
    ensures |WholeBytes(bits)| == n
  {
    assert |bits| / 8 == n;
    assert bits[..8 * n] == bits;
  }

  lemma AtobOfWhole(s: string)
    requires |s| % 4 == 0 && DropPadding(s) == s && StandardIndexes(s).Some?
    ensures Atob(s) == Some(WholeBytes(BitsOfSextets(StandardIndexes(s).value)))
  {
    hide StandardIndexes, BitsOfSextets, WholeBytes, DropPadding;
  }

  /** A text over the alphabet, of whole groups of four and without padding, decodes to three bytes a group. */
  lemma UnpaddedDecodes(s: string, groups: nat)
    requires groups > 0 && |s| == 4 * groups && s[|s| - 1] != '='
    requires forall i :: 0 <= i < |s| ==> StandardIndex(s[i]).Some?
    ensures Atob(s).Some? && |Atob(s).value| == 3 * groups
  {
    assert |s| % 4 == 0;
    ValidText(s);
    NothingDropped(s);
    AtobOfWhole(s);
    hide *;
    WholeBytesOf(BitsOfSextets(StandardIndexes(s).value), 3 * groups);
  }

  /** 32 characters of the alphabet are a valid key of either kind: 24 bytes. */
  lemma SampleIsValid(c: char)
    requires StandardIndex(c).Some? && c != '='
    ensures ValidateOpaqueKeyEnvelope(SampleKey(c)) && ValidatePublicKeyBlob(SampleKey(c))
  {
    UnpaddedDecodes(SampleKey(c), 8);
    hide Atob, StandardIndex;
  }

  lemma RunOneMore(s: State, e: Event, rest: seq<Event>)
    ensures Run(s, [e] + rest) == Run(Step(s, e), rest)
  {
    hide Step;
    assert ([e] + rest)[1..] == rest;
  }

  /** Two requests have read a row without keys and not written yet. */
  function BothRead(first: Request, second: Request): seq<Event> {
    [Begin(0, PLAIN)] + ([Insert(0, 0)] + ([Begin(1, first)] + [Begin(2, second)]))
  }

  function BothReadState(one: Decided, two: Decided): State {
    State(Some(PLAIN_ROW), map[1 := Updating(0, one, NO_KEYS), 2 := Updating(0, two, NO_KEYS)], {0})
  }

  lemma BothAreRead(first: Request, second: Request)
    requires CheckRequest(Resolve(first, NO_KEYS), first.payload, NO_KEYS).Accepted?
    requires CheckRequest(Resolve(second, NO_KEYS), second.payload, NO_KEYS).Accepted?
    ensures Run(START, BothRead(first, second))
         == BothReadState(Decided(Resolve(first, NO_KEYS), first.payload),
                          Decided(Resolve(second, NO_KEYS), second.payload))
  {
    RequestsResolve(NO_KEYS, "", "", "");
    hide Resolve, ValidateE2eeAuthPayload;
    var plain := Decided(Resolution(None, false, false), NOTHING);
    var one := Decided(Resolve(first, NO_KEYS), first.payload);
    var two := Decided(Resolve(second, NO_KEYS), second.payload);
    var s1 := State(None, map[0 := Inserting(plain)], {});
    var s2 := State(Some(PLAIN_ROW), map[], {0});
    var s3 := State(Some(PLAIN_ROW), map[1 := Updating(0, one, NO_KEYS)], {0});
    assert Step(START, Begin(0, PLAIN)) == s1;
    assert Step(s1, Insert(0, 0)) == s2;
    assert Step(s2, Begin(1, first)) == s3;
    assert Step(s3, Begin(2, second)) == BothReadState(one, two);
    hide Step, CheckRequest;
    RunOneMore(START, Begin(0, PLAIN), [Insert(0, 0)] + ([Begin(1, first)] + [Begin(2, second)]));
    RunOneMore(s1, Insert(0, 0), [Begin(1, first)] + [Begin(2, second)]);
    RunOneMore(s2, Begin(1, first), [Begin(2, second)]);
    assert [Begin(2, second)] + [] == [Begin(2, second)];
    RunOneMore(s3, Begin(2, second), []);
  }

  lemma WritesInTurn(one: Decided, two: Decided)
    ensures var s := BothReadState(one, two);
            var first := UpdatedRow(one.resolution, one.payload, NO_KEYS, NO_KEYS);
            && Step(s, Update(1)).row == Some(Row(0, first))
            && Step(Step(s, Update(1)), Update(2)).row
               == Some(Row(0, UpdatedRow(two.resolution, two.payload, NO_KEYS, first)))
  {
    hide UpdatedRow;
  }

  lemma KeyIsAccepted(key: string, row: Keys)
    requires ValidateOpaqueKeyEnvelope(key)
    requires row.appPublicKey == None && row.encryptedAppPrivateKey == None
    ensures var r, payload := Resolution(Some(Symmetric), false, false), LegacyRequest(key).payload;
            && Resolve(LegacyRequest(key), NO_KEYS) == r && CheckRequest(r, payload, NO_KEYS).Accepted?
            && UpdatedRow(r, payload, NO_KEYS, row) == Keys(Some(key), None, None, Some("symmetric"))
  {
    RequestsResolve(NO_KEYS, key, "", "");
    RecoveredKeyIsPresent(key);
    hide ValidateOpaqueKeyEnvelope, Resolve;
  }

  lemma KeyPairIsAccepted(publicKey: string, privateKey: string, row: Keys)
    requires ValidatePublicKeyBlob(publicKey) && ValidateOpaqueKeyEnvelope(privateKey) && publicKey != ""
    ensures var r, payload := Resolution(Some(Asymmetric), false, false), KeyPairRequest(publicKey, privateKey).payload;
            && Resolve(KeyPairRequest(publicKey, privateKey), NO_KEYS) == r && CheckRequest(r, payload, NO_KEYS).Accepted?
            && UpdatedRow(r, payload, NO_KEYS, row)
               == Keys(row.encryptedAppKey, Some(publicKey), Some(privateKey), Some("asymmetric"))
  {
    RequestsResolve(NO_KEYS, "", publicKey, privateKey);
    RecoveredKeyIsPresent(privateKey);
    hide ValidateOpaqueKeyEnvelope, ValidatePublicKeyBlob, Resolve;
  }

  /** Two requests that send the first key of an authorization: both are told that theirs is stored, and the second
      update overwrites the key of the first. */
  lemma TwoUpdatesOverwrite(key: string, other: string)
    requires ValidateOpaqueKeyEnvelope(key) && ValidateOpaqueKeyEnvelope(other) && key != other
    ensures var s := Run(START, BothRead(LegacyRequest(key), LegacyRequest(other)));
            var t := Step(s, Update(1));
            && t.row == Some(Row(0, Keys(Some(key), None, None, Some("symmetric"))))
            && Step(t, Update(2)).row == Some(Row(0, Keys(Some(other), None, None, Some("symmetric"))))
            && !Keeps(t.row.value.keys, Step(t, Update(2)).row.value.keys)
            && CodeOf(t, Update(2)).Some?
  {
    var resolution := Resolution(Some(Symmetric), false, false);
    KeyIsAccepted(key, NO_KEYS);
    KeyIsAccepted(other, NO_KEYS);
    KeyIsAccepted(other, Keys(Some(key), None, None, Some("symmetric")));
    hide ValidateOpaqueKeyEnvelope, Resolve, CheckRequest, UpdatedRow;
    BothAreRead(LegacyRequest(key), LegacyRequest(other));
    hide BothRead, Run;
    WritesInTurn(Decided(resolution, LegacyRequest(key).payload), Decided(resolution, LegacyRequest(other).payload));
  }

  /** The same with a key and a key pair: the row ends with both, which no mode describes. */
  lemma TwoModesMix(key: string, publicKey: string, privateKey: string)
    requires ValidateOpaqueKeyEnvelope(key) && ValidatePublicKeyBlob(publicKey) && ValidateOpaqueKeyEnvelope(privateKey)
    requires publicKey != ""
    ensures var s := Run(START, BothRead(LegacyRequest(key), KeyPairRequest(publicKey, privateKey)));
            var t := Step(s, Update(1));
            && Step(t, Update(2)).row
               == Some(Row(0, Keys(Some(key), Some(publicKey), Some(privateKey), Some("asymmetric"))))
            && !WellFormed(Step(t, Update(2)).row.value.keys)
  {
    KeyIsAccepted(key, NO_KEYS);
    KeyPairIsAccepted(publicKey, privateKey, NO_KEYS);
    KeyPairIsAccepted(publicKey, privateKey, Keys(Some(key), None, None, Some("symmetric")));
    hide ValidateOpaqueKeyEnvelope, ValidatePublicKeyBlob, Resolve, CheckRequest, UpdatedRow;
    BothAreRead(LegacyRequest(key), KeyPairRequest(publicKey, privateKey));
    hide BothRead, Run, Step;
    WritesInTurn(Decided(Resolution(Some(Symmetric), false, false), LegacyRequest(key).payload),
                 Decided(Resolution(Some(Asymmetric), false, false), KeyPairRequest(publicKey, privateKey).payload));
  }

  /** There are such keys. */
  lemma StaleUpdatesLoseKeys()
    ensures var s := Run(START, BothRead(LegacyRequest(SampleKey('A')), LegacyRequest(SampleKey('B'))));
            var t := Step(s, Update(1));
            t.row.Some? && Step(t, Update(2)).row.Some? && !Keeps(t.row.value.keys, Step(t, Update(2)).row.value.keys)
    ensures var s := Run(START, BothRead(LegacyRequest(SampleKey('A')), KeyPairRequest(SampleKey('B'), SampleKey('C'))));
            var t := Step(Step(s, Update(1)), Update(2));
            t.row.Some? && !WellFormed(t.row.value.keys)
  {
    SampleIsValid('A');
    SampleIsValid('B');
    SampleIsValid('C');
    assert SampleKey('A')[0] == 'A' && SampleKey('B')[0] == 'B';
    hide Run, BothRead, Step, Keeps, WellFormed, SampleKey, ValidateOpaqueKeyEnvelope, ValidatePublicKeyBlob;
    TwoUpdatesOverwrite(SampleKey('A'), SampleKey('B'));
    TwoModesMix(SampleKey('A'), SampleKey('B'), SampleKey('C'));
  }

  /** The keys of the mode that a request sends. */
  predicate GivenKeysAreStored(mode: E2eeMode, payload: Payload, after: Keys) {
    if mode.Symmetric? then
      Present(payload.encryptedAppKey) ==>
        ValidateOpaqueKeyEnvelope(payload.encryptedAppKey.value) && after.encryptedAppKey == payload.encryptedAppKey
    else
      && (Present(payload.appPublicKey) ==>
            ValidatePublicKeyBlob(payload.appPublicKey.value) && after.appPublicKey == payload.appPublicKey)
      && (Present(payload.encryptedAppPrivateKey) ==>
            && ValidateOpaqueKeyEnvelope(payload.encryptedAppPrivateKey.value)
            && after.encryptedAppPrivateKey == payload.encryptedAppPrivateKey)
  }

  /** A request for an implemented mode is accepted exactly when its update leaves the row well formed,
      replaces nothing unless it resets, and stores every key it sends, each of them valid. */
  lemma AcceptedExactly(r: Resolution, payload: Payload, existing: Keys)
    requires WellFormed(existing) && !r.conflict && r.mode.Some? && IsImplementedE2eeMode(r.mode.value)
    ensures var after := UpdatedRow(r, payload, existing, existing);
            CheckRequest(r, payload, existing).Accepted? <==>
              && WellFormed(after) && (!r.reset ==> Keeps(existing, after))
              && GivenKeysAreStored(r.mode.value, payload, after)
  {
    hide ValidateOpaqueKeyEnvelope, ValidatePublicKeyBlob;
    if r.reset {
      ResetAcceptedExactly(r, payload, existing);
    } else if r.mode == Some(Symmetric) {
      SymmetricAcceptedExactly(r, payload, existing);
    } else {
      AsymmetricAcceptedExactly(r, payload, existing);
    }
  }

  lemma ResetAcceptedExactly(r: Resolution, payload: Payload, existing: Keys)
    requires r.reset && !r.conflict && r.mode.Some? && IsImplementedE2eeMode(r.mode.value)
    ensures var after := UpdatedRow(r, payload, existing, existing);
            CheckRequest(r, payload, existing).Accepted? <==>
              WellFormed(after) && GivenKeysAreStored(r.mode.value, payload, after)
  {
    hide ValidateOpaqueKeyEnvelope, ValidatePublicKeyBlob;
  }

  lemma SymmetricAcceptedExactly(r: Resolution, payload: Payload, existing: Keys)
    requires WellFormed(existing) && !r.conflict && !r.reset && r.mode == Some(Symmetric)
    ensures var after := UpdatedRow(r, payload, existing, existing);
            CheckRequest(r, payload, existing).Accepted? <==>
              WellFormed(after) && Keeps(existing, after) && GivenKeysAreStored(Symmetric, payload, after)
  {
    hide ValidateOpaqueKeyEnvelope, ValidatePublicKeyBlob;
  }

  lemma AsymmetricAcceptedExactly(r: Resolution, payload: Payload, existing: Keys)
    requires WellFormed(existing) && !r.conflict && !r.reset && r.mode == Some(Asymmetric)
    ensures var after := UpdatedRow(r, payload, existing, existing);
            CheckRequest(r, payload, existing).Accepted? <==>
              WellFormed(after) && Keeps(existing, after) && GivenKeysAreStored(Asymmetric, payload, after)
  {
    hide ValidateOpaqueKeyEnvelope, ValidatePublicKeyBlob;
  }
}
