/** The remote executor (pkg/utils/ssh.go's SSHExec) is not part of this
    model; what the model relies on is its result taxonomy, carried by the
    type of executor functions. */
module Exec {
  import opened Wrappers
  import opened Errs
  import opened Config

  /** What SSHExec promises: one output per command in order, or one of
      its three errors; a key problem (`AuthFailed`) needs a configured key
      file; with no commands no session is opened, so `ExecFailed` cannot
      happen. */
  ghost predicate Contract(f: (RouterConfig, seq<string>) -> Result<seq<string>, Error>) {
    forall cfg, cmds ::
      && (f(cfg, cmds).Success? ==> |f(cfg, cmds).value| == |cmds|)
      && (f(cfg, cmds).Failure? ==> f(cfg, cmds).error in {AuthFailed, ConnectionFailed, ExecFailed})
      && (f(cfg, cmds) == Failure(AuthFailed) ==> cfg.sshKey != "")
      && (f(cfg, cmds) == Failure(ExecFailed) ==> |cmds| > 0)
  }

  type Executor = f: (RouterConfig, seq<string>) -> Result<seq<string>, Error> | Contract(f)
    witness (cfg: RouterConfig, cmds: seq<string>) => Failure(ConnectionFailed)

  /** The health probe runs no commands: it gets no outputs, or fails on
      the key file or the connection, never on a session. */
  lemma NoCommandsProbe(exec: Executor, cfg: RouterConfig)
    ensures exec(cfg, []) == Success([]) || exec(cfg, []) == Failure(ConnectionFailed) ||
            (exec(cfg, []) == Failure(AuthFailed) && cfg.sshKey != "")
  {
    var r := exec(cfg, []);
    assert Contract(exec);
    if r.Success? {
      assert |r.value| == 0;
    }
  }
}
