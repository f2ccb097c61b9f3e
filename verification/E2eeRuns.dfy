/** What an authorization, a recovery and a revocation do to the stored keys from their first statement to their last. */
module E2eeRuns {
  import opened Options
  import opened E2eeScopes
  import opened OauthScopes
  import opened E2eeKeys
  import opened ByteBits
  import opened Bits
  import opened Rfc4648
  import Base64Url

  lemma RunOne(s: State, a: Event)
    ensures Run(s, [a]) == Step(s, a)
  {
    hide Step;
    assert [a][1..] == [];
    assert Run(s, [a]) == Run(Step(s, a), []);
  }

  lemma RunTwo(s: State, a: Event, b: Event)
    ensures Run(s, [a, b]) == Step(Step(s, a), b)
  {
    hide Step;
    assert [a, b][1..] == [b];
    RunOne(Step(s, a), b);
  }

  lemma RunThree(s: State, a: Event, b: Event, c: Event)
    ensures Run(s, [a, b, c]) == Step(Step(Step(s, a), b), c)
  {
    hide Step;
    assert [a, b, c][1..] == [b, c];
    RunTwo(Step(s, a), b, c);
  }

  /** The name of a mode with colons for underscores. */
  function Colons(s: string): (r: string)
    ensures |r| == |s|
  {
    seq(|s|, i requires 0 <= i < |s| => if s[i] == '_' then ':' else s[i])
  }

  /** Scope texts, modes and stored names fit together: each mode is read back from its stored name, and asked for by
      the scope of that name and by no scope that reads otherwise. */
  lemma ScopesFollowModeNames(mode: E2eeMode, scope: string)
    ensures StoredModeToE2eeMode(ModeName(mode)) == Some(mode)
    ensures ModeOfScope(scope) == Some(mode) <==> NormalizeScopeToken(scope) == "e2ee:" + Colons(ModeName(mode))
    ensures IsImplementedE2eeMode(mode) <==> ModeName(mode) == "symmetric" || ModeName(mode) == "asymmetric"
  {
    var t := NormalizeScopeToken(scope);
    hide NormalizeScopeToken;
    assert Colons("symmetric") == "symmetric" && Colons("asymmetric") == "asymmetric";
    assert Colons("pqc_kyber") == "pqc:kyber" && Colons("pqc_dilithium") == "pqc:dilithium";
    assert "e2ee:symmetric" == "e2ee:" + "symmetric" && "e2ee:asymmetric" == "e2ee:" + "asymmetric";
    assert "e2ee:pqc:kyber" == "e2ee:" + "pqc:kyber" && "e2ee:pqc:dilithium" == "e2ee:" + "pqc:dilithium";
    assert |"e2ee:symmetric"| != |"e2ee:asymmetric"| && |"e2ee:symmetric"| == |"e2ee:pqc:kyber"|;
    assert "e2ee:symmetric"[5] != "e2ee:pqc:kyber"[5];
  }

  /** A stored key was sent or, unless it is a reset, already there. */
  predicate HasSource(reset: bool, given: Option<string>, kept: Option<string>, stored: Option<string>) {
    stored.Some? ==> stored == given || (!reset && stored == kept)
  }

  /** What a write stores of a request: without a mode nothing; otherwise a row of the mode with every key that was
      sent for it and, unless it is a reset, every key and the mode that were there, and no other key. */
  predicate Stores(r: Resolution, payload: Payload, before: Keys, after: Keys) {
    if r.mode.None? then after == before
    else
      && WellFormed(after) && after.appEncryptionMode == Some(ModeName(r.mode.value))
      && GivenKeysAreStored(r.mode.value, payload, after) && (!r.reset ==> Keeps(before, after))
      && HasSource(r.reset, payload.encryptedAppKey, before.encryptedAppKey, after.encryptedAppKey)
      && HasSource(r.reset, payload.appPublicKey, before.appPublicKey, after.appPublicKey)
      && HasSource(r.reset, payload.encryptedAppPrivateKey, before.encryptedAppPrivateKey, after.encryptedAppPrivateKey)
  }

  /** What is stored is determined. */
  lemma StoredIsDetermined(r: Resolution, payload: Payload, before: Keys, after: Keys, other: Keys)
    requires Stores(r, payload, before, after) && Stores(r, payload, before, other)
    ensures after == other
  {
    hide ValidateOpaqueKeyEnvelope, ValidatePublicKeyBlob;
  }

  /** A request is refused that names two modes, resets without one or asks for one that is not implemented;
      any other one is accepted exactly if it can be stored. */
  ghost predicate Acceptable(r: Resolution, payload: Payload, before: Keys) {
    && !r.conflict && (r.reset ==> r.mode.Some?)
    && (r.mode.Some? ==> r.mode == Some(Symmetric) || r.mode == Some(Asymmetric))
    && exists after :: Stores(r, payload, before, after)
  }

  lemma AcceptedIsStored(r: Resolution, payload: Payload, before: Keys)
    requires WellFormed(before) && CheckRequest(r, payload, before).Accepted?
    ensures Stores(r, payload, before, UpdatedRow(r, payload, before, before))
  {
    AcceptedMode(r, payload, before);
    if r.mode.Some? {
      hide Stores, UpdatedRow, CheckRequest, WellFormed;
      if r.reset {
        AcceptedResetIsStored(r, payload, before);
      } else {
        AcceptedKeysAreStored(r, payload, before);
      }
    }
  }

  lemma AcceptedResetIsStored(r: Resolution, payload: Payload, before: Keys)
    requires CheckRequest(r, payload, before).Accepted? && r.reset
    requires r.mode == Some(Symmetric) || r.mode == Some(Asymmetric)
    ensures Stores(r, payload, before, UpdatedRow(r, payload, before, before))
  {
    hide ValidateOpaqueKeyEnvelope, ValidatePublicKeyBlob, ValidateSymmetric, ValidateAsymmetric;
  }

  lemma AcceptedKeysAreStored(r: Resolution, payload: Payload, before: Keys)
    requires WellFormed(before) && CheckRequest(r, payload, before).Accepted? && !r.reset
    requires r.mode == Some(Symmetric) || r.mode == Some(Asymmetric)
    ensures Stores(r, payload, before, UpdatedRow(r, payload, before, before))
  {
    hide ValidateOpaqueKeyEnvelope, ValidatePublicKeyBlob, ValidateReset;
  }

  lemma StoredIsAccepted(r: Resolution, payload: Payload, before: Keys, after: Keys)
    requires WellFormed(before) && Stores(r, payload, before, after) && !r.conflict && (r.reset ==> r.mode.Some?)
    requires r.mode.Some? ==> r.mode == Some(Symmetric) || r.mode == Some(Asymmetric)
    ensures CheckRequest(r, payload, before).Accepted?
  {
    hide ValidateOpaqueKeyEnvelope, ValidatePublicKeyBlob;
    assert "symmetric" != "asymmetric";
  }

  lemma AcceptableExactly(r: Resolution, payload: Payload, before: Keys)
    requires WellFormed(before)
    ensures CheckRequest(r, payload, before).Accepted? <==> Acceptable(r, payload, before)
    ensures Acceptable(r, payload, before) ==> Stores(r, payload, before, UpdatedRow(r, payload, before, before))
  {
    if CheckRequest(r, payload, before).Accepted? {
      AcceptedIsStored(r, payload, before);
      AcceptedMode(r, payload, before);
    }
    hide Stores, CheckRequest, UpdatedRow, WellFormed;
    if Acceptable(r, payload, before) {
      var after :| Stores(r, payload, before, after);
      StoredIsAccepted(r, payload, before, after);
      AcceptedIsStored(r, payload, before);
    }
  }

  lemma AcceptedMode(r: Resolution, payload: Payload, before: Keys)
    requires CheckRequest(r, payload, before).Accepted?
    ensures !r.conflict && (r.reset ==> r.mode.Some?)
    ensures r.mode.Some? ==> r.mode == Some(Symmetric) || r.mode == Some(Asymmetric)
  {
    hide ValidateReset, ValidateSymmetric, ValidateAsymmetric;
  }

  /** Undisturbed, the first authorization inserts a row with what the request stores, exactly if it is acceptable;
      otherwise nothing happens. */
  lemma FirstAuthorizationExactly(s: State, h: HandlerId, request: Request, id: RowId)
    requires h !in s.handlers && id !in s.used && s.row == None
    ensures var t := Run(s, [Begin(h, request), Insert(h, id)]);
            var r := Resolve(request, NO_KEYS);
            if Acceptable(r, request.payload, NO_KEYS) then
              && t.row.Some? && t.row.value.id == id && Stores(r, request.payload, NO_KEYS, t.row.value.keys)
              && t.handlers == s.handlers
            else t == s
  {
    var r := Resolve(request, NO_KEYS);
    var decided := Decided(r, request.payload);
    EmptyIsWellFormed();
    hide Resolve, CheckRequest, UpdatedRow, WellFormed, Stores, Acceptable, Run;
    AcceptableExactly(r, request.payload, NO_KEYS);
    RunTwo(s, Begin(h, request), Insert(h, id));
    if Acceptable(r, request.payload, NO_KEYS) {
      var begun := s.(handlers := s.handlers[h := Inserting(decided)]);
      assert Step(s, Begin(h, request)) == begun;
      assert begun.handlers - {h} == s.handlers;
    } else {
      assert Step(s, Begin(h, request)) == s;
    }
  }

  /** Undisturbed, a further authorization updates the row with what the request stores, exactly if it is acceptable
      for the keys that are there; otherwise nothing happens. */
  lemma FurtherAuthorizationExactly(s: State, h: HandlerId, request: Request, row: Row)
    requires h !in s.handlers && s.row == Some(row) && WellFormed(row.keys)
    ensures var t := Run(s, [Begin(h, request), Update(h)]);
            var r := Resolve(request, row.keys);
            if Acceptable(r, request.payload, row.keys) then
              && t.row.Some? && t.row.value.id == row.id && Stores(r, request.payload, row.keys, t.row.value.keys)
              && t.handlers == s.handlers
            else t == s
  {
    var r := Resolve(request, row.keys);
    var decided := Decided(r, request.payload);
    hide Resolve, CheckRequest, UpdatedRow, WellFormed, Stores, Acceptable, Run;
    AcceptableExactly(r, request.payload, row.keys);
    RunTwo(s, Begin(h, request), Update(h));
    if Acceptable(r, request.payload, row.keys) {
      var begun := s.(handlers := s.handlers[h := Updating(row.id, decided, row.keys)]);
      assert Step(s, Begin(h, request)) == begun;
      assert begun.handlers - {h} == s.handlers;
    } else {
      assert Step(s, Begin(h, request)) == s;
    }
  }

  /** An insert that meets a row does what a further authorization would have done: it stores its request exactly if
      that is acceptable for the row it meets, and otherwise leaves the row alone. */
  lemma ConflictingInsertExactly(s: State, h: HandlerId, decided: Decided, id: RowId, row: Row)
    requires h in s.handlers && s.handlers[h] == Inserting(decided) && id !in s.used
    requires s.row == Some(row) && WellFormed(row.keys) && DecidedFor(decided, NO_KEYS)
    ensures var t := Run(s, [Insert(h, id), Reread(h), Update(h)]);
            && t.row.Some? && t.row.value.id == row.id && t.handlers == s.handlers - {h}
            && if Acceptable(decided.resolution, decided.payload, row.keys)
               then Stores(decided.resolution, decided.payload, row.keys, t.row.value.keys)
               else t.row == s.row
  {
    var r, payload := decided.resolution, decided.payload;
    RevalidatedExactly(decided, row.keys);
    hide CheckRequest, UpdatedRow, WellFormed, Stores, Acceptable, Run, ValidateE2eeAuthPayload;
    AcceptableExactly(r, payload, row.keys);
    RunThree(s, Insert(h, id), Reread(h), Update(h));
    var conflict := s.(handlers := s.handlers[h := Rereading(decided)]);
    assert Step(s, Insert(h, id)) == conflict;
    assert conflict.handlers - {h} == s.handlers - {h};
    if Acceptable(r, payload, row.keys) {
      var reread := s.(handlers := s.handlers[h := Updating(row.id, decided, row.keys)]);
      assert Step(conflict, Reread(h)) == reread;
      assert reread.handlers - {h} == s.handlers - {h};
    } else {
      assert Step(conflict, Reread(h)) == s.(handlers := s.handlers - {h});
    }
  }

  lemma RevalidatedExactly(decided: Decided, keys: Keys)
    requires DecidedFor(decided, NO_KEYS)
    ensures var r := decided.resolution;
            CheckRequest(r, decided.payload, keys).Accepted? <==>
              r.mode.None? || ValidateE2eeAuthPayload(r.mode.value, decided.payload, keys, r.reset).Accepted?
  {
    hide ValidateE2eeAuthPayload, WellFormed;
  }

  /** Undisturbed, a recovery replaces all keys by the one it sends, exactly if that is a valid envelope and the row
      has symmetric keys or none; otherwise nothing happens. */
  lemma RecoveryExactly(s: State, h: HandlerId, key: string)
    requires h !in s.handlers
    ensures var t := Run(s, [BeginRecovery(h, key), FinishRecovery(h)]);
            var mode := if s.row.Some? then s.row.value.keys.appEncryptionMode else None;
            if s.row.Some? && ValidateOpaqueKeyEnvelope(key) && (mode == None || mode == Some("") || mode == Some("symmetric"))
            then t == s.(row := Some(Row(s.row.value.id, Keys(Some(key), None, None, Some("symmetric")))))
            else t == s
  {
    hide ValidateOpaqueKeyEnvelope, Run;
    RunTwo(s, BeginRecovery(h, key), FinishRecovery(h));
    var begun := Step(s, BeginRecovery(h, key));
    assert begun.handlers - {h} == s.handlers;
  }

  /** A revocation removes the keys for good: an update or a recovery that read the row writes nothing, and does not
      touch a row that was inserted since. */
  lemma RevokedKeysAreGone(s: State, h: HandlerId, g: HandlerId, id: RowId)
    requires h in s.handlers && g in s.handlers && h != g && id !in s.used && s.handlers[g].Inserting?
    requires s.handlers[h].Updating? || s.handlers[h].Recovering?
    requires s.handlers[h].id in s.used
    ensures var write := if s.handlers[h].Updating? then Update(h) else FinishRecovery(h);
            var t := Run(s, [Revoke, Insert(g, id)]);
            && Run(s, [Revoke]).row == None && Run(s, [Revoke, write]).row == None
            && t.row.Some? && t.row.value.id == id && Run(t, [write]).row == t.row
  {
    var write := if s.handlers[h].Updating? then Update(h) else FinishRecovery(h);
    var revoked := s.(row := None);
    var inserted := Step(revoked, Insert(g, id));
    assert Step(s, Revoke) == revoked;
    NewRowIsInserted(revoked, g, id);
    hide Step, Run;
    RunOne(s, Revoke);
    RunTwo(s, Revoke, write);
    RunTwo(s, Revoke, Insert(g, id));
    RunOne(inserted, write);
    WriteMisses(revoked, h);
    WriteMisses(inserted, h);
  }

  lemma NewRowIsInserted(s: State, g: HandlerId, id: RowId)
    requires g in s.handlers && s.handlers[g].Inserting? && id !in s.used && s.row.None?
    ensures var t := Step(s, Insert(g, id)); t.row.Some? && t.row.value.id == id && t.handlers == s.handlers - {g}
  {
    hide UpdatedRow;
  }

  /** A write finds no row with the id it read. */
  lemma WriteMisses(s: State, h: HandlerId)
    requires h in s.handlers && (s.handlers[h].Updating? || s.handlers[h].Recovering?)
    requires s.row.Some? ==> s.row.value.id != s.handlers[h].id
    ensures Step(s, if s.handlers[h].Updating? then Update(h) else FinishRecovery(h)).row == s.row
  {
    hide UpdatedRow;
  }

  /** Decoding undoes the standard encoding with its padding. */
  lemma StandardDecodes(b: seq<Byte>)
    ensures Atob(StandardEncode(b)) == Some(b)
    ensures |StandardEncode(b)| == (|b| + 2) / 3 * 4
  {
    hide Sextets, BitsOfSextets, BitsOfBytes, BytesOfBits, WholeBytes, Atob, StandardChars, FillBits, Zeros, Repeat;
    var s := SextetsOfBytes(b);
    Base64Url.SextetCount(|b|, |s|);
    var n := (-|s|) % 4;
    PaddedCount(|b|, |s|);
    Base64Url.DecodePadded(s, n);
    BitsOfSextetsOfBits(BitsOfBytes(b) + Zeros(FillBits(|b|)));
    Base64Url.FillIsDropped(b, FillBits(|b|));
  }

  lemma PaddedCount(n: int, m: int)
    requires 0 <= n && 0 <= m && 0 <= 6 * m - 8 * n < 6 && m % 4 != 1
    ensures var p := (-m) % 4; 0 <= p <= 2 && (m + p) % 4 == 0 && m + p == (n + 2) / 3 * 4
  {
    var q, r := n / 3, n % 3;
    Base64Url.CeilingOfThirds(n, m);
    var over := if r == 0 then 0 else r + 1;
    assert m == 4 * q + over;
    Negated(q, over);
  }

  lemma Negated(q: int, over: int)
    requires over == 0 || over == 2 || over == 3
    ensures var m := 4 * q + over;
            (-m) % 4 == if over == 0 then 0 else 4 - over
  {
    if over == 0 {
      Base64Url.Remainder4(-(4 * q), -q, 0);
    } else {
      Base64Url.Remainder4(-(4 * q + over), -q - 1, 4 - over);
    }
  }

  /** A key in standard base64 is accepted exactly for its size: an envelope from 12 bytes to 64 KiB, a public key from
      20 bytes to 16 KiB. */
  lemma KeySizesExactly(b: seq<Byte>)
    ensures ValidateOpaqueKeyEnvelope(StandardEncode(b)) <==> 12 <= |b| <= 65536
    ensures ValidatePublicKeyBlob(StandardEncode(b)) <==> 20 <= |b| <= 16384
  {
    StandardDecodes(b);
    hide Atob, StandardEncode;
  }
}
