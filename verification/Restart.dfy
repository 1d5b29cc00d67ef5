/** Key rotation and introspection together: tokens outlive the rotations that happen while they are valid. */
module Restart {
  import opened Exchange
  import opened Minting
  import Rotation

  /** A process started when the rotations had come so far: it signs with the key file and publishes the overlap file. */
  ghost predicate StartedOn(sts: Sts, keys: Rotation.State, overlap: Rotation.State) {
    sts.signer == keys.active && sts.extraKeys == overlap.overlap
  }

  ghost predicate SameService(sts: Sts, later: Sts) {
    later.issuer == sts.issuer && sts.targets.Keys <= later.targets.Keys && later.leeway >= 0
  }

  /** A server restarted at any later point of any run of rotations still serves the key that an earlier one signed with. */
  lemma RestartedStillServes(s0: Rotation.State, run: seq<Rotation.Label>, h: nat, i: nat, sts: Sts, later: Sts)
    requires Rotation.Initial(s0) && Rotation.RunsUndisturbed(s0, run) && Rotation.Exec(s0, run).Some? && h <= i <= |run|
    requires Rotation.Exec(s0, run[..h]).Some? && sts.signer == Rotation.Exec(s0, run[..h]).value.active
    requires Rotation.Exec(s0, run[..i]).Some? && StartedOn(later, Rotation.Exec(s0, run[..i]).value, Rotation.Exec(s0, run).value)
    requires SameService(sts, later)
    ensures StillServes(sts, later)
  {
    Rotation.UndisturbedPrefix(s0, run, i);
    assert run[..i][..h] == run[..h];
    Rotation.RunKeepsInv(s0, run[..i], h);
    Rotation.NoKeyIsLost(s0, run, i, sts.signer);
  }

  /**
   * Every token minted by a server that read its key file at some point of a run of rotations, crashes included, is
   * reported active between `iat` and `exp` by a server restarted at any later point of that run.
   */
  lemma TokenOutlivesRotation(s0: Rotation.State, run: seq<Rotation.Label>, h: nat, i: nat, sts: Sts, later: Sts,
                              env: Env, req: HttpRequest, at: Times, now: int, jti: string, n: int)
    requires Rotation.Initial(s0) && Rotation.RunsUndisturbed(s0, run) && Rotation.Exec(s0, run).Some? && h <= i <= |run|
    requires Rotation.Exec(s0, run[..h]).Some? && sts.signer == Rotation.Exec(s0, run[..h]).value.active
    requires Rotation.Exec(s0, run[..i]).Some? && StartedOn(later, Rotation.Exec(s0, run[..i]).value, Rotation.Exec(s0, run).value)
    requires SameService(sts, later) && ValidConfig(sts) && Prepare(sts, env, req, at).Ok?
    requires now <= n < Mint(sts, Prepare(sts, env, req, at).value, now, jti).exp
    ensures ActiveAt(later, Sign(sts, Mint(sts, Prepare(sts, env, req, at).value, now, jti)), n)
  {
    RestartedStillServes(s0, run, h, i, sts, later);
    MintedIsActive(sts, later, env, req, at, now, jti, n);
  }
}
