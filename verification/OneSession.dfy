/** Everything that may write to OneLake, in one session: statements on tables, the lakehouse
    filesystem, pushes and lazy writes, and `notebookutils`, in any order. Each keeps its own part
    of OneLake: tables, what Hadoop sees, what the mirror is pushed to, and what `fs` names. */
module OneSession {
  import WritePolicy
  import LakehouseFs
  import Push
  import FileOps

  datatype Op =
    | OnTables(table: WritePolicy.Op)
    | ThroughHadoop(call: LakehouseFs.Call<LakehouseFs.FsPath>)
    | FromMirror(push: Push.Op)
    | WithUtils(utils: FileOps.Op)

  /** What a statement on a table names itself is not on OneLake; paths are well formed. */
  ghost predicate Fair(op: Op) {
    && (op.OnTables? ==> WritePolicy.NoExplicitOneLake(op.table))
    && (op.ThroughHadoop? ==> LakehouseFs.ValidOp(op.call))
  }

  class Session {
    const tables: WritePolicy.Runtime
    const hadoop: LakehouseFs.Filesystem
    const mirror: Push.Uploader
    const utils: FileOps.FS

    /** One write mode for all, and an empty catalog. */
    constructor (c: WritePolicy.Config, store: WritePolicy.Store, root: string, service: LakehouseFs.Service,
                 files: LakehouseFs.Store, net: Push.Network, remote: Push.Files, limit: nat, t: FileOps.Tree)
      requires WritePolicy.LocalShadow(c) && service.Valid() && FileOps.WellFormed(t)
      ensures fresh(tables) && fresh(hadoop) && fresh(mirror) && fresh(utils)
      ensures tables.c == c && Valid()
      ensures tables.store == store && hadoop.store == files && mirror.remote == remote && utils.t == t
    {
      var mode := match c.mode
                  case Sandbox => "sandbox"
                  case ReadOnly => "readonly"
                  case Writethrough => "writethrough";
      tables := new WritePolicy.Runtime(c, store);
      hadoop := new LakehouseFs.Filesystem(root, mode, service, files);
      mirror := new Push.Uploader(mode, net, map[], {}, remote);
      utils := new FileOps.FS(c.mode == WritePolicy.Writethrough, limit, t);
    }

    predicate Writethrough() {
      tables.c.mode == WritePolicy.Writethrough
    }

    ghost predicate Valid()
      reads tables, hadoop, mirror, utils
    {
      && WritePolicy.LocalShadow(tables.c) && hadoop.service.Valid() && FileOps.WellFormed(utils.t)
      && (hadoop.Writable() <==> Writethrough()) && (mirror.Writable() <==> Writethrough())
      && (utils.writethrough <==> Writethrough())
      && (!Writethrough() ==> WritePolicy.Shielded(tables.W()))
    }

    method Perform(op: Op)
      requires Valid() && Fair(op)
      modifies tables, hadoop, mirror, utils
      ensures Valid()
      ensures !Writethrough() ==>
                && WritePolicy.OneLakeOf(tables.store) == WritePolicy.OneLakeOf(old(tables.store))
                && hadoop.store == old(hadoop.store) && mirror.remote == old(mirror.remote)
                && FileOps.OneLakeKept(old(utils.t), utils.t)
    {
      match op
      case OnTables(table) => var _ := tables.Perform(table);
      case ThroughHadoop(call) =>
        ghost var before := hadoop.store;
        var r := hadoop.Perform(call);
        hadoop.RefusedOrNot(call, before, r, hadoop.store);
      case FromMirror(push) => var _ := mirror.Session([push]);
      case WithUtils(op) => utils.Session([op]);
    }

    /** In sandbox and readonly, after any of these operations in any order, every part of OneLake
        is what it was. */
    method Run(ops: seq<Op>)
      requires Valid() && forall op <- ops :: Fair(op)
      modifies tables, hadoop, mirror, utils
      ensures Valid()
      ensures !Writethrough() ==>
                && WritePolicy.OneLakeOf(tables.store) == WritePolicy.OneLakeOf(old(tables.store))
                && hadoop.store == old(hadoop.store) && mirror.remote == old(mirror.remote)
                && FileOps.OneLakeKept(old(utils.t), utils.t)
    {
      for i := 0 to |ops|
        invariant Valid()
        invariant !Writethrough() ==>
                    && WritePolicy.OneLakeOf(tables.store) == WritePolicy.OneLakeOf(old(tables.store))
                    && hadoop.store == old(hadoop.store) && mirror.remote == old(mirror.remote)
                    && FileOps.OneLakeKept(old(utils.t), utils.t)
      {
        ghost var before := utils.t;
        Perform(ops[i]);
        assert !Writethrough() ==> FileOps.OneLakeKept(before, utils.t);
      }
    }
  }
}
