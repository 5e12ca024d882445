/** With which code the cutover requests refuse (apps/runtime-host/src/cutover.ts), and what is well formed. */
module CutoverRefusals {
  import opened Results
  import opened Drains
  import GatewayTraffic
  import opened Cutover
  import opened CutoverAnswers

  predicate Authority(s: System) { s.promoted && s.role == ActiveRole }

  /** Which of five refusals is given when; what none of the first four covers is invalid input. */
  predicate RefusedAs(r: Response, denied: bool, stale: bool, foreign: bool, failed: bool) {
    && (r == Failed(PolicyDenied) <==> denied)
    && (r == Failed(StaleHash) <==> stale)
    && (r == Failed(AuthInvalid) <==> foreign)
    && (r == Failed(ProcessFailed) <==> failed)
    && (r.Failed? ==> r.code in {PolicyDenied, StaleHash, AuthInvalid, ProcessFailed, InvalidInput})
  }

  lemma DrainRefused(s: System, op: nat, c: int, g: Option<int>, timeoutMs: int)
    requires op !in s.pending
    ensures RefusedAs(Step(s, BeginDrain(op, c, g, timeoutMs)).1,
                      !Authority(s),
                      Authority(s) && 1 <= timeoutMs <= 300000 && Stale(s, c, g),
                      false, false)
  {
    GuardAnswers(s, c, GatewayTraffic.IsTimeout(timeoutMs), g);
  }

  lemma CheckpointRefused(s: System, op: nat, c: int, g: Option<int>, token: string, routeNow: bool)
    requires op !in s.pending
    ensures RefusedAs(Step(s, BeginCheckpoint(op, c, g, token, routeNow)).1,
                      !Authority(s),
                      Authority(s) && IsToken(token) && Stale(s, c, g),
                      false,
                      FenceMet(s, c, g) && IsToken(token) && !s.trafficDetached && !Quiet(s))
  {
    GuardAnswers(s, c, IsToken(token), g);
  }

  /** A checkpoint is stored under another id than the one named. */
  predicate OtherStored(s: System, id: string) { s.checkpoint.Some? && s.checkpoint.value.id != id }

  lemma DetachRefused(s: System, op: nat, c: int, g: Option<int>, id: string, token: string, routeNow: bool)
    requires op !in s.pending
    ensures var passes := FenceMet(s, c, g) && IsIdentifier(id) && IsToken(token);
            RefusedAs(Step(s, BeginDetach(op, c, g, id, token, routeNow)).1,
                      !Authority(s),
                      (Authority(s) && Stale(s, c, g)) || (passes && OtherStored(s, id)),
                      passes && s.checkpoint.Some? && !OtherStored(s, id) && !Holds(s, id, token),
                      passes && Holds(s, id, token) && !Quiet(s))
  {
    GuardAnswers(s, c, true, g);
  }

  lemma ResumeRefused(s: System, op: nat, c: int, g: Option<int>, routeNow: bool)
    requires op !in s.pending
    ensures RefusedAs(Step(s, BeginResume(op, c, g, routeNow)).1,
                      !Authority(s),
                      Authority(s) && Stale(s, c, g),
                      false,
                      FenceMet(s, c, g) && s.trafficDetached && s.checkpoint.None?)
  {
    GuardAnswers(s, c, true, g);
  }

  // --- what is well formed ---

  /** The base64url alphabet (section 5 of RFC 4648). */
  function Sextet(v: int): char
    requires 0 <= v < 64
  {
    if v < 26 then 'A' + v as char
    else if v < 52 then 'a' + (v - 26) as char
    else if v < 62 then '0' + (v - 52) as char
    else if v == 62 then '-' else '_'
  }

  predicate SextetBelow(c: char, limit: int)
    requires limit <= 64
  {
    exists v :: 0 <= v < limit && Sextet(v) == c
  }

  lemma AlphanumericMeans(c: char)
    ensures IsAlphanumeric(c) <==> SextetBelow(c, 62)
  {
    if 'A' <= c <= 'Z' { assert Sextet(c as int - 'A' as int) == c; }
    if 'a' <= c <= 'z' { assert Sextet(26 + c as int - 'a' as int) == c; }
    if '0' <= c <= '9' { assert Sextet(52 + c as int - '0' as int) == c; }
  }

  lemma TokenUnit(c: char)
    ensures IsAlphanumeric(c) || c in "_-" <==> SextetBelow(c, 64)
  {
    AlphanumericMeans(c);
    assert Sextet(62) == '-' && Sextet(63) == '_';
  }

  /** A token is 43 characters of the base64url alphabet, which is how long 32 bytes are in it. */
  lemma TokenMeans(s: string)
    ensures IsToken(s) <==> |s| == 43 && forall i :: 0 <= i < |s| ==> SextetBelow(s[i], 64)
  {
    forall i | 0 <= i < |s| ensures IsAlphanumeric(s[i]) || s[i] in "_-" <==> SextetBelow(s[i], 64) {
      TokenUnit(s[i]);
    }
  }

  /** An identifier begins with a letter or digit and has up to 255 more of them, dots, underscores, colons, dashes. */
  lemma IdentifierMeans(s: string)
    ensures IsIdentifier(s)
            <==> && 1 <= |s| <= 256 && SextetBelow(s[0], 62)
                 && forall i :: 0 < i < |s| ==> SextetBelow(s[i], 62) || s[i] in "._:-"
  {
    forall i | 0 <= i < |s| ensures IsAlphanumeric(s[i]) <==> SextetBelow(s[i], 62) { AlphanumericMeans(s[i]); }
  }
}
