/**
 * Which encryption mode an authorization request asks for, as the server
 * (ave-server/src/lib/e2ee-scopes.ts) and the browser
 * (ave-web/src/lib/surfaces/web/lib/e2ee-scopes.ts) resolve it.
 */
module E2eeScopes {
  import opened Options
  import opened OauthScopes

  datatype E2eeMode = Symmetric | Asymmetric | PqcKyber | PqcDilithium

  datatype Resolution = Resolution(mode: Option<E2eeMode>, conflict: bool, reset: bool)

  function ModeOfScope(scope: string): Option<E2eeMode> {
    var s := NormalizeScopeToken(scope);
    if s == "e2ee:symmetric" then Some(Symmetric)
    else if s == "e2ee:asymmetric" then Some(Asymmetric)
    else if s == "e2ee:pqc:kyber" then Some(PqcKyber)
    else if s == "e2ee:pqc:dilithium" then Some(PqcDilithium)
    else None
  }

  predicate IsE2eeResetScope(scope: string) {
    NormalizeScopeToken(scope) == "e2ee:reset"
  }

  predicate IsE2eeScope(scope: string) {
    ModeOfScope(scope).Some? || IsE2eeResetScope(scope)
  }

  predicate IsUserIdScope(scope: string) {
    NormalizeScopeToken(scope) == "user_id"
  }

  predicate HasE2eeResetScope(scopes: seq<string>) {
    exists i :: 0 <= i < |scopes| && IsE2eeResetScope(scopes[i])
  }

  predicate HasAnyE2eeScope(scopes: seq<string>) {
    exists i :: 0 <= i < |scopes| && IsE2eeScope(scopes[i])
  }

  /** E2EE and user_id scopes are always allowed; the others must be configured on the app. */
  predicate IsScopeAllowedForApp(scope: string, allowedScopes: seq<string>) {
    IsE2eeScope(scope) || IsUserIdScope(scope) || NormalizeScopeToken(scope) in allowedScopes
  }

  function StoredModeToE2eeMode(stored: string): Option<E2eeMode> {
    if stored == "symmetric" then Some(Symmetric)
    else if stored == "asymmetric" then Some(Asymmetric)
    else if stored == "pqc_kyber" then Some(PqcKyber)
    else if stored == "pqc_dilithium" then Some(PqcDilithium)
    else None
  }

  /** The modes a request names, as a set. */
  function RequestedModes(scopes: seq<string>): (r: set<E2eeMode>) {
    set i | 0 <= i < |scopes| && ModeOfScope(scopes[i]).Some? :: ModeOfScope(scopes[i]).value
  }

  predicate Names(modes: seq<E2eeMode>, s: set<E2eeMode>) {
    forall m :: m in modes <==> m in s
  }

  /** What remains when a request names no mode. */
  function Fallback(reset: bool, stored: string): Option<E2eeMode> {
    if reset then StoredModeToE2eeMode(stored) else None
  }

  /**
   * The server's answer, read off the set of requested modes: more than one is a
   * conflict, one is that mode, none is the legacy mode or, on reset, the stored one.
   */
  ghost predicate ServerResolves(requested: seq<string>, supportsE2ee: bool, allowed: seq<string>, stored: string,
                                 r: Resolution)
  {
    var u := RequestedModes(requested);
    && r.reset == HasE2eeResetScope(requested)
    && (|u| > 1 ==> r.conflict && r.mode == None)
    && (|u| <= 1 ==> !r.conflict)
    && (|u| == 1 ==> r.mode.Some? && u == {r.mode.value})
    && (|u| == 0 ==> r.mode == if supportsE2ee && !HasAnyE2eeScope(allowed) then Some(Symmetric)
                               else Fallback(r.reset, stored))
  }

  /** The one answer the server gives. */
  ghost function ServerResolution(requested: seq<string>, supportsE2ee: bool, allowed: seq<string>, stored: string)
    : (r: Resolution)
    ensures ServerResolves(requested, supportsE2ee, allowed, stored, r)
  {
    hide ModeOfScope;
    var u := RequestedModes(requested);
    var reset := HasE2eeResetScope(requested);
    if u == {} then
      Resolution(if supportsE2ee && !HasAnyE2eeScope(allowed) then Some(Symmetric) else Fallback(reset, stored), false, reset)
    else
      var mode :| mode in u;
      OneModeOrMore(u, mode);
      if u == {mode} then Resolution(Some(mode), false, reset) else Resolution(None, true, reset)
  }

  lemma OneModeOrMore(u: set<E2eeMode>, mode: E2eeMode)
    requires mode in u
    ensures |u| <= 1 <==> u == {mode}
  {
    assert u == {mode} + (u - {mode}) && |u| == 1 + |u - {mode}|;
  }

  /** The browser's answer; it reports no conflict. */
  ghost predicate ClientResolves(requested: seq<string>, supportsE2ee: bool, stored: string, r: Resolution) {
    var u := RequestedModes(requested);
    && r.reset == HasE2eeResetScope(requested)
    && !r.conflict
    && (|u| > 1 ==> r.mode == Fallback(r.reset, stored))
    && (|u| == 1 ==> r.mode.Some? && u == {r.mode.value})
    && (|u| == 0 ==> r.mode == if supportsE2ee then Some(Symmetric) else Fallback(r.reset, stored))
  }

  /** The loop shared by both resolvers: one mode per mode scope, in request order. */
  method CollectModes(requested: seq<string>) returns (matched: seq<E2eeMode>)
    ensures Names(matched, RequestedModes(requested))
  {
    matched := [];
    for i := 0 to |requested|
      invariant Names(matched, RequestedModes(requested[..i]))
    {
      var mode := ModeOfScope(requested[i]);
      ModesOfPrefix(requested, i);
      if mode.Some? {
        matched := matched + [mode.value];
      }
    }
    assert requested[..|requested|] == requested;
  }

  lemma ModesOfPrefix(scopes: seq<string>, i: nat)
    requires i < |scopes|
    ensures RequestedModes(scopes[..i + 1])
         == RequestedModes(scopes[..i]) + if ModeOfScope(scopes[i]).Some? then {ModeOfScope(scopes[i]).value} else {}
  {
    hide ModeOfScope;
    var s, t := scopes[..i + 1], scopes[..i];
    forall m
      ensures m in RequestedModes(s) <==> m in RequestedModes(t) || ModeOfScope(scopes[i]) == Some(m)
    {
      if m in RequestedModes(s) {
        var k :| 0 <= k < |s| && ModeOfScope(s[k]) == Some(m);
        assert k < i ==> t[k] == s[k];
      }
      if m in RequestedModes(t) {
        var k :| 0 <= k < |t| && ModeOfScope(t[k]) == Some(m);
        assert s[k] == t[k];
      }
      assert s[i] == scopes[i];
    }
  }

  /** `[...new Set(matched)]` */
  method Distinct(matched: seq<E2eeMode>, ghost u: set<E2eeMode>) returns (unique: seq<E2eeMode>)
    requires Names(matched, u)
    ensures Names(unique, u) && |unique| == |u|
  {
    unique := [];
    ghost var seen := {};
    for i := 0 to |matched|
      invariant Names(unique, seen) && |unique| == |seen|
      invariant forall m :: m in seen <==> m in matched[..i]
    {
      if matched[i] !in unique {
        unique := unique + [matched[i]];
        seen := seen + {matched[i]};
      }
    }
    assert matched[..|matched|] == matched;
    assert seen == u;
  }

  /** ave-server resolveE2eeAuthorization */
  method ResolveOnServer(requested: seq<string>, supportsE2ee: bool, allowed: seq<string>, stored: string)
    returns (r: Resolution)
    ensures ServerResolves(requested, supportsE2ee, allowed, stored, r)
    ensures r == ServerResolution(requested, supportsE2ee, allowed, stored)
  {
    hide ModeOfScope;
    ghost var u := RequestedModes(requested);
    var reset := HasE2eeResetScope(requested);
    var legacySymmetric := supportsE2ee && !HasAnyE2eeScope(allowed);
    var matched := CollectModes(requested);
    ghost var all := u;
    if legacySymmetric && matched == [] {
      matched := matched + [Symmetric];
      all := {Symmetric};
    }
    assert matched == [] ==> u == {};
    assert matched != [] ==> matched[0] in matched;
    var unique := Distinct(matched, all);
    if |unique| > 1 {
      assert u == all;
      return Resolution(None, true, reset);
    }
    var mode := if |unique| > 0 then Some(unique[0]) else None;
    SingleMode(unique, all);
    if reset && mode.None? {
      mode := StoredModeToE2eeMode(stored);
    }
    return Resolution(mode, false, reset);
  }

  /** ave-web resolveE2eeAuthorization */
  method ResolveInBrowser(requested: seq<string>, supportsE2ee: bool, stored: string) returns (r: Resolution)
    ensures ClientResolves(requested, supportsE2ee, stored, r)
  {
    hide ModeOfScope;
    ghost var u := RequestedModes(requested);
    var reset := HasE2eeResetScope(requested);
    var matched := CollectModes(requested);
    ghost var all := u;
    if supportsE2ee && matched == [] {
      matched := matched + [Symmetric];
      all := {Symmetric};
    }
    assert matched == [] ==> u == {};
    assert matched != [] ==> matched[0] in matched;
    var unique := Distinct(matched, all);
    SingleMode(unique, all);
    var mode := if |unique| == 1 then Some(unique[0]) else None;
    if reset && mode.None? {
      mode := StoredModeToE2eeMode(stored);
    }
    return Resolution(mode, false, reset);
  }

  lemma SingleMode(unique: seq<E2eeMode>, all: set<E2eeMode>)
    requires Names(unique, all) && |unique| == |all|
    ensures |unique| == 1 ==> all == {unique[0]}
  {
    if |unique| == 1 {
      assert unique[0] in unique;
      assert forall m :: m in all ==> m == unique[0];
    }
  }

  /**
   * The two resolvers give the same mode and reset flag exactly when one of these holds:
   * the request names one mode; it names several and no stored mode steps in on reset;
   * it names none and the legacy rule applies on both sides or on neither, or the stored
   * mode that the server falls back to is the legacy one.
   */
  lemma ResolversAgreeExactly(requested: seq<string>, supportsE2ee: bool, allowed: seq<string>, stored: string,
                              server: Resolution, client: Resolution)
    requires ServerResolves(requested, supportsE2ee, allowed, stored, server)
    requires ClientResolves(requested, supportsE2ee, stored, client)
    ensures var u := RequestedModes(requested);
            var fallback := Fallback(HasE2eeResetScope(requested), stored);
            (server.mode == client.mode && server.reset == client.reset)
            <==> (|u| == 1
                  || (|u| > 1 && fallback == None)
                  || (|u| == 0 && (!supportsE2ee || !HasAnyE2eeScope(allowed) || fallback == Some(Symmetric))))
  {
    hide RequestedModes;
    var u := RequestedModes(requested);
    if |u| == 1 {
      assert server.mode.value in u && client.mode.value in u;
    }
  }

  /** An app that still lists an E2EE scope, and a request without one: no mode for the server, the legacy mode for
      the browser. */
  lemma ListedScopeDivides(server: Resolution, client: Resolution)
    requires ServerResolves([], true, ["e2ee:symmetric"], "", server)
    requires ClientResolves([], true, "", client)
    ensures server.mode == None && client.mode == Some(Symmetric)
  {
    var scope := "e2ee:symmetric";
    assert NormalizeScopeToken(scope) == scope;
    assert IsE2eeScope([scope][0]);
    assert RequestedModes([]) == {};
  }

  /** A reset that names two modes: a conflict for the server, the stored mode for the browser. */
  lemma TwoModesDivide(server: Resolution, client: Resolution)
    requires ServerResolves(["e2ee:symmetric", "e2ee:asymmetric", "e2ee:reset"], true, [], "asymmetric", server)
    requires ClientResolves(["e2ee:symmetric", "e2ee:asymmetric", "e2ee:reset"], true, "asymmetric", client)
    ensures server.conflict && server.mode == None && client.mode == Some(Asymmetric)
  {
    var requested := ["e2ee:symmetric", "e2ee:asymmetric", "e2ee:reset"];
    assert NormalizeScopeToken("e2ee:symmetric") == "e2ee:symmetric";
    assert NormalizeScopeToken("e2ee:asymmetric") == "e2ee:asymmetric";
    assert NormalizeScopeToken("e2ee:reset") == "e2ee:reset";
    assert ModeOfScope(requested[0]) == Some(Symmetric) && ModeOfScope(requested[1]) == Some(Asymmetric);
    assert ModeOfScope(requested[2]) == None && IsE2eeResetScope(requested[2]);
    hide ModeOfScope, IsE2eeResetScope, NormalizeScopeToken;
    assert RequestedModes(requested) == {Symmetric, Asymmetric};
  }

  /** stripE2eeScopes leaves no E2EE scope, so a stripped app never makes the resolvers disagree on one mode. */
  function StripE2eeScopes(scopes: seq<string>): (r: seq<string>)
    ensures forall i :: 0 <= i < |r| ==> !IsE2eeScope(r[i]) && !IsUserIdScope(r[i])
    ensures forall t :: t in r ==> exists i :: 0 <= i < |scopes| && t == NormalizeScopeToken(scopes[i])
    ensures forall i :: 0 <= i < |scopes| ==>
              var t := NormalizeScopeToken(scopes[i]); IsE2eeScope(t) || IsUserIdScope(t) || t in r
  {
    hide ModeOfScope;
    if scopes == [] then []
    else
      var t := NormalizeScopeToken(scopes[0]);
      (if IsE2eeScope(t) || IsUserIdScope(t) then [] else [t]) + StripE2eeScopes(scopes[1..])
  }

  lemma StrippedAppAgrees(requested: seq<string>, supportsE2ee: bool, configured: seq<string>, stored: string,
                          server: Resolution, client: Resolution)
    requires |RequestedModes(requested)| <= 1
    requires ServerResolves(requested, supportsE2ee, StripE2eeScopes(configured), stored, server)
    requires ClientResolves(requested, supportsE2ee, stored, client)
    ensures server == client
  {
    hide RequestedModes, StripE2eeScopes, IsE2eeScope;
    ResolversAgreeExactly(requested, supportsE2ee, StripE2eeScopes(configured), stored, server, client);
  }
}
