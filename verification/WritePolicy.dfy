/** The write policy of tables: what touching, creating and writing them may do to OneLake in
    each write mode (OneLakeCatalog.scala). Contents are opaque; a path is on OneLake when it is
    an abfss:// path. */
module WritePolicy {
  import opened Text
  import Names

  datatype Mode = Sandbox | ReadOnly | Writethrough

  datatype DvStrategy = LiveView | Clone

  predicate OnOneLake(path: string) {
    "abfss://" <= path
  }

  /** Everything stored anywhere, by full path. */
  type Store = map<string, string>

  /** A table by its session database and name, as somebody spells them. */
  datatype Ident = Ident(ns: string, name: string)

  /** The session catalog ignores case. */
  function Key(ident: Ident): Ident {
    Ident(Lower(ident.ns), Lower(ident.name))
  }

  /** A session-catalog entry: a Delta table at a location, or a view that reads one. */
  datatype Entry = Table(location: string) | View(source: string)

  datatype World = World(store: Store, catalog: map<Ident, Entry>)

  /** What a session is configured with (`workspaces` are those of lakehouses outside its own), and
      what the storage answers: the listing of Tables/ (a real name by lakehouse id, schema and name)
      and the tables with deletion vectors. */
  datatype Config = Config(
    mode: Mode, dv: DvStrategy, workspace: string, workspaces: map<string, string>, host: string, shadowRoot: string,
    lakehouses: Names.Lakehouses, listing: (string, string, string) -> Option<string>, hasVectors: string -> bool)

  /** The engine passes the shadow root as a file: URI. */
  predicate LocalShadow(c: Config) {
    "file:" <= c.shadowRoot
  }

  datatype Outcome = Done | Refused | NotFound

  // ---- locations ----

  /** `workspaceFor`. */
  function WorkspaceFor(c: Config, id: string): string {
    if id in c.workspaces then c.workspaces[id] else c.workspace
  }

  function OneLakePath(c: Config, id: string, table: string, schema: string): string {
    "abfss://" + WorkspaceFor(c, id) + "@" + c.host + "/" + id + "/" + Names.OneLakePath(id, table, schema).1
  }

  function ShadowPath(c: Config, id: string, table: string): string {
    c.shadowRoot + "/" + id + "/" + table
  }

  /** `resolveOneLake`: the lakehouse id and the OneLake path of an existing table. */
  function Resolve(c: Config, s: Store, ident: Ident): Option<(string, string)> {
    match Names.LakehouseAndSchema(c.lakehouses, ident.ns)
    case None => None
    case Some(found) =>
      var exact := OneLakePath(c, found.0, ident.name, found.1);
      var cased := c.listing(found.0, found.1, ident.name);
      if exact in s then Some((found.0, exact))
      else if cased.Some? && cased.value != ident.name && OneLakePath(c, found.0, cased.value, found.1) in s then
        Some((found.0, OneLakePath(c, found.0, cased.value, found.1)))
      else None
  }

  /** Where OneLake keeps the tables of a lakehouse, or of a schema of it: in the lakehouse's own
      workspace if it has another. */
  function TablesOf(c: Config, id: string, ns: seq<string>): string {
    "abfss://" + (if id in c.workspaces then c.workspaces[id] else c.workspace) + "@" + c.host
    + "/" + id + "/Tables/" + (if |ns| == 1 then ns[0] + "/" else "")
  }

  /** A table is looked up there, first by its name as it is spelled and then, when there is no such
      table, by the name that the listing of the same place has for it. */
  lemma ResolveIs(c: Config, s: Store, lakehouse: string, ns: seq<string>, name: string)
    requires Names.NamesTable(c.lakehouses, lakehouse, ns)
    ensures Resolve(c, s, Ident(if ns == [] then lakehouse else lakehouse + "__" + ns[0], name))
         == (var id := c.lakehouses[Lower(lakehouse)];
             var at := TablesOf(c, id, ns);
             var listed := c.listing(id, if ns == [] then "" else ns[0], name);
             if at + name in s then Some((id, at + name))
             else if listed.Some? && listed.value != name && at + listed.value in s then Some((id, at + listed.value))
             else None)
  {
    var id, schema := c.lakehouses[Lower(lakehouse)], if ns == [] then "" else ns[0];
    Names.DbLooksUp(c.lakehouses, lakehouse, ns);
    PathIs(c, id, name, ns);
    PathIs(c, id, c.listing(id, schema, name).GetOr(""), ns);
    hide OneLakePath, TablesOf, Names.LakehouseAndSchema;
  }

  lemma PathIs(c: Config, id: string, name: string, ns: seq<string>)
    requires |ns| <= 1 && (|ns| == 1 ==> ns[0] != "")
    ensures OneLakePath(c, id, name, if ns == [] then "" else ns[0]) == TablesOf(c, id, ns) + name
  {
    var head := "abfss://" + WorkspaceFor(c, id) + "@" + c.host + "/" + id;
    var place := if ns == [] then "" else ns[0] + "/";
    BelowTables(head, place, name);
    if ns == [] {
      assert "" + name == name;
    } else {
      assert "Tables/" + ns[0] + "/" + name == "Tables/" + (ns[0] + "/" + name);
    }
  }

  lemma BelowTables(head: string, place: string, name: string)
    ensures head + "/" + ("Tables/" + (place + name)) == head + "/Tables/" + place + name
  {
    assert "/" + "Tables/" == "/Tables/";
  }

  /** Where a materialized table's own copy is kept. */
  function Shadow(c: Config, ident: Ident, id: string): string {
    ShadowPath(c, id, Names.ShadowName(c.lakehouses, ident.ns, ident.name))
  }

  /** `policed`: where a create or replace puts the table; None when it is refused. */
  function Policed(c: Config, ident: Ident, location: Option<string>, warehouse: string): Option<string> {
    match Names.LakehouseAndSchema(c.lakehouses, ident.ns)
    case None => Some(location.GetOr(warehouse))
    case Some(found) =>
      if c.mode == ReadOnly then None
      else if location.Some? then location
      else if c.mode == Writethrough then Some(OneLakePath(c, found.0, ident.name, ""))
      else Some(ShadowPath(c, found.0, ident.name))
  }

  /** Both directories, spelled out: a touched table of a schema is kept below the schema and a dot,
      and a created one below its own name alone, in its schema or not. */
  lemma PlacesAre(c: Config, lakehouse: string, ns: seq<string>, name: string, location: Option<string>,
                  warehouse: string)
    requires Names.NamesTable(c.lakehouses, lakehouse, ns)
    ensures var ident := Ident(if ns == [] then lakehouse else lakehouse + "__" + ns[0], name);
            var id := c.lakehouses[Lower(lakehouse)];
            && Shadow(c, ident, id) == c.shadowRoot + "/" + id + "/" + (if ns == [] then "" else ns[0] + ".") + name
            && Policed(c, ident, location, warehouse)
            == match c.mode
               case ReadOnly => None
               case Writethrough => Some(location.GetOr(TablesOf(c, id, []) + name))
               case Sandbox => Some(location.GetOr(c.shadowRoot + "/" + id + "/" + name))
  {
    var id := c.lakehouses[Lower(lakehouse)];
    Names.DbLooksUp(c.lakehouses, lakehouse, ns);
    Names.ShadowNameIs(c.lakehouses, lakehouse, ns, name);
    PathIs(c, id, name, []);
    var root := c.shadowRoot + "/" + id + "/";
    if ns == [] {
      assert root + name == root + "" + name;
    } else {
      assert root + (ns[0] + "." + name) == root + (ns[0] + ".") + name;
    }
    hide OneLakePath, TablesOf, Names.LakehouseAndSchema, Names.ShadowName;
  }

  // ---- what the operations do ----

  /** What a query of a registered table reads. */
  function ReadOf(w: World, ident: Ident): Option<string> {
    if Key(ident) !in w.catalog then None
    else
      ReadAt(w.store, PlaceOf(w.catalog[Key(ident)]))
  }

  /** What an entry reads. */
  function PlaceOf(e: Entry): string {
    match e case Table(location) => location case View(source) => source
  }

  /** Only the entry of one table differs. */
  ghost predicate OnlyEntry(c0: map<Ident, Entry>, c1: map<Ident, Entry>, ident: Ident) {
    Key(ident) in c1 && forall i :: i != Key(ident) ==> (i in c0 <==> i in c1) && (i in c0 ==> c1[i] == c0[i])
  }

  /** Only what is stored at one place differs. */
  ghost predicate OnlyAt(s0: Store, s1: Store, at: string) {
    forall p :: p != at ==> (p in s0 <==> p in s1) && (p in s0 ==> s1[p] == s0[p])
  }

  /** A table of OneLake is registered: itself in writethrough, else its shadow or a view. It
      reads as its shadow where there was one and as the OneLake table otherwise; nothing that
      was stored is changed, and a shadow is added exactly where a copy is registered. */
  ghost predicate Materialized(c: Config, w0: World, ident: Ident, id: string, src: string, w1: World) {
    var shadow := Shadow(c, ident, id);
    && OnlyEntry(w0.catalog, w1.catalog, ident)
    && (w1.catalog[Key(ident)] == Table(src) <==> c.mode == Writethrough)
    && (w1.catalog[Key(ident)].View? <==>
          c.mode != Writethrough && shadow !in w0.store && c.hasVectors(src) && c.dv == LiveView)
    && (w1.catalog[Key(ident)] in {Table(src), Table(shadow), View(src)})
    && (forall p <- w0.store :: p in w1.store && w1.store[p] == w0.store[p])
    && w1.store.Keys == w0.store.Keys + (if w1.catalog[Key(ident)] == Table(shadow) then {shadow} else {})
    && ReadOf(w1, ident) == ReadAt(w0.store, if c.mode != Writethrough && shadow in w0.store then shadow else src)
  }

  function ReadAt(s: Store, p: string): Option<string> {
    if p in s then Some(s[p]) else None
  }

  /** `loadTable`. */
  ghost predicate Touches(c: Config, w0: World, ident: Ident, r: Outcome, w1: World) {
    && (r == Done <==> Key(ident) in w1.catalog)
    && if Key(ident) in w0.catalog then w1 == w0
       else
         match Resolve(c, w0.store, ident)
         case None => r == NotFound && w1 == w0
         case Some(found) => r == Done && Materialized(c, w0, ident, found.0, found.1, w1)
  }

  /** createTable and the stage* operations: a lakehouse table is refused in readonly. The new
      table reads as what was put in it, only its entry and what is stored at its location differ,
      and it lands on OneLake only where the caller's location is, or in writethrough. */
  ghost predicate Creates(c: Config, w0: World, ident: Ident, location: Option<string>, warehouse: string,
                          data: string, r: Outcome, w1: World) {
    var found := Names.LakehouseAndSchema(c.lakehouses, ident.ns);
    && r in {Done, Refused}
    && (r == Refused <==> found.Some? && c.mode == ReadOnly)
    && (r == Refused ==> w1 == w0)
    && (r == Done ==>
          && OnlyEntry(w0.catalog, w1.catalog, ident) && w1.catalog[Key(ident)].Table?
          && OnlyAt(w0.store, w1.store, w1.catalog[Key(ident)].location)
          && ReadOf(w1, ident) == Some(data)
          && (location.Some? ==> w1.catalog[Key(ident)].location == location.value)
          && (location.None? && found.None? ==> w1.catalog[Key(ident)].location == warehouse)
          && (location.None? && found.Some? && OnOneLake(w1.catalog[Key(ident)].location) ==>
                && c.mode == Writethrough
                && w1.catalog[Key(ident)].location == OneLakePath(c, found.value.0, ident.name, ""))
          && (location.None? && found.Some? && !OnOneLake(w1.catalog[Key(ident)].location) ==>
                c.mode == Sandbox && w1.catalog[Key(ident)].location == ShadowPath(c, found.value.0, ident.name)))
  }

  /** INSERT, UPDATE, MERGE … of a table, which loads it first: a view refuses, any other table
      then reads as what was put in it, and only what is stored at its location differs. */
  ghost predicate Writes(c: Config, w0: World, ident: Ident, data: string, r: Outcome, w1: World) {
    exists t: World, touched: Outcome :: Touches(c, w0, ident, touched, t) &&
      if touched != Done then r == NotFound && w1 == w0
      else if t.catalog[Key(ident)].View? then r == Refused && w1 == t
      else && r == Done && w1.catalog == t.catalog && ReadOf(w1, ident) == Some(data)
           && OnlyAt(t.store, w1.store, t.catalog[Key(ident)].location)
  }

  datatype Op =
    | Touch(ident: Ident)
    /** Without a location, Spark's own is `warehouse`. */
    | Create(ident: Ident, location: Option<string>, warehouse: string, data: string)
    | Write(ident: Ident, data: string)
    /** Whatever only the local disk sees. */
    | Local(gone: set<string>, put: map<string, string>)

  /** Everything that is not on OneLake is what it was but for what is gone and what is put there. */
  ghost predicate Locally(s0: Store, gone: set<string>, put: map<string, string>, s1: Store) {
    && OneLakeOf(s1) == OneLakeOf(s0)
    && forall p | !OnOneLake(p) ::
         ReadAt(s1, p) == if p in put then Some(put[p]) else if p in gone then None else ReadAt(s0, p)
  }

  ghost predicate Does(c: Config, w0: World, op: Op, r: Outcome, w1: World) {
    match op
    case Touch(ident) => Touches(c, w0, ident, r, w1)
    case Create(ident, location, warehouse, data) => Creates(c, w0, ident, location, warehouse, data, r, w1)
    case Write(ident, data) => Writes(c, w0, ident, data, r, w1)
    case Local(gone, put) =>
      r == Done && w1.catalog == w0.catalog && Locally(w0.store, gone, put, w1.store)
  }

  // ---- the catalog ----

  /** The session as the source keeps it: one object whose store and catalog change in place. */
  class Runtime {
    const c: Config
    var store: Store
    var catalog: map<Ident, Entry>

    constructor (c: Config, store: Store)
      ensures this.c == c && W() == World(store, map[])
    {
      this.c, this.store, this.catalog := c, store, map[];
    }

    function W(): World
      reads this
    {
      World(store, catalog)
    }

    /** `materialize`. */
    method Materialize(ident: Ident, id: string, src: string)
      requires LocalShadow(c) && OnOneLake(src) && Key(ident) !in catalog && src in store
      modifies this
      ensures Materialized(c, old(W()), ident, id, src, W())
      ensures c.mode != Writethrough ==> OneLakeOf(store) == OneLakeOf(old(store))
      ensures c.mode != Writethrough && Shielded(old(W())) ==> Shielded(W())
    {
      hide OneLakePath, OneLakeOf, Shielded, ShadowPath;
      ghost var w0 := W();
      ShadowIsLocal(c, id, Names.ShadowName(c.lakehouses, ident.ns, ident.name));
      if c.mode == Writethrough {
        catalog := catalog[Key(ident) := Table(src)];
      } else {
        var shadow := Shadow(c, ident, id);
        if shadow in store {
          catalog := catalog[Key(ident) := Table(shadow)];
        } else if c.hasVectors(src) && c.dv == LiveView {
          catalog := catalog[Key(ident) := View(src)];
        } else {
          store := store[shadow := store[src]];
          catalog := catalog[Key(ident) := Table(shadow)];
        }
      }
      MaterializedIsShielded(c, w0, ident, id, src, W());
    }

    /** `loadTable`. */
    method LoadTable(ident: Ident) returns (r: Outcome)
      requires LocalShadow(c)
      modifies this
      ensures Touches(c, old(W()), ident, r, W())
      ensures c.mode != Writethrough ==> OneLakeOf(store) == OneLakeOf(old(store))
      ensures c.mode != Writethrough && Shielded(old(W())) ==> Shielded(W())
    {
      if Key(ident) !in catalog {
        var found := Resolve(c, store, ident);
        if found.None? {
          return NotFound;
        }
        ResolvedOnOneLake(c, store, ident);
        Materialize(ident, found.value.0, found.value.1);
      }
      r := Done;
    }

    /** `createTable`, `stageCreate`, `stageReplace`, `stageCreateOrReplace`. */
    method CreateTable(ident: Ident, location: Option<string>, warehouse: string, data: string) returns (r: Outcome)
      requires LocalShadow(c)
      modifies this
      ensures Creates(c, old(W()), ident, location, warehouse, data, r, W())
      ensures c.mode != Writethrough && !OnOneLake(warehouse) && !OnOneLake(location.GetOr("")) ==>
                OneLakeOf(store) == OneLakeOf(old(store)) && (Shielded(old(W())) ==> Shielded(W()))
    {
      hide OneLakeOf, Shielded, OneLakePath, ShadowPath, Key, Names.LakehouseAndSchema;
      ghost var w0 := W();
      var at := Policed(c, ident, location, warehouse);
      if at.None? {
        return Refused;
      }
      var found := Names.LakehouseAndSchema(c.lakehouses, ident.ns);
      if found.Some? {
        ShadowIsLocal(c, found.value.0, ident.name);
        PathOnOneLake(c, found.value.0, ident.name, "");
      }
      store := store[at.value := data];
      catalog := catalog[Key(ident) := Table(at.value)];
      r := Done;
      if c.mode != Writethrough && !OnOneLake(at.value) {
        SameOneLake(w0.store, store, at.value);
        StaysShielded(w0, W(), ident);
      }
    }

    /** A statement that writes to a table. */
    method WriteTable(ident: Ident, data: string) returns (r: Outcome)
      requires LocalShadow(c)
      modifies this
      ensures Writes(c, old(W()), ident, data, r, W())
      ensures c.mode != Writethrough && Shielded(old(W())) ==>
                OneLakeOf(store) == OneLakeOf(old(store)) && Shielded(W())
    {
      hide Resolve, Materialized;
      r := LoadTable(ident);
      ghost var touched, t := r, W();
      if r.Done? {
        if catalog[Key(ident)].View? {
          return Refused;
        }
        store := store[catalog[Key(ident)].location := data];
      }
    }

    /** Any operation of a session, with what it does. */
    method Perform(op: Op) returns (r: Outcome)
      requires LocalShadow(c)
      modifies this
      ensures Does(c, old(W()), op, r, W())
      ensures c.mode != Writethrough && NoExplicitOneLake(op) && Shielded(old(W())) ==>
                OneLakeOf(store) == OneLakeOf(old(store)) && Shielded(W())
    {
      hide Touches, Creates, Writes, Locally, OneLakeOf;
      match op
      case Touch(ident) => r := LoadTable(ident);
      case Create(ident, location, warehouse, data) => r := CreateTable(ident, location, warehouse, data);
      case Write(ident, data) => r := WriteTable(ident, data);
      case Local(gone, put) =>
        Change(gone, put);
        r := Done;
    }

    /** Whatever changes on the local disk. */
    method Change(gone: set<string>, put: map<string, string>)
      modifies this`store
      ensures Locally(old(store), gone, put, store)
      ensures OneLakeOf(store) == OneLakeOf(old(store))
    {
      var kept := map p | p in store && (OnOneLake(p) || p !in gone) :: store[p];
      store := kept + map p | p in put && !OnOneLake(p) :: put[p];
    }
  }

  // ---- what stays ----

  function OneLakeOf(s: Store): Store {
    map p | p in s && OnOneLake(p) :: s[p]
  }

  /** Every registered table is somewhere local, or is a view. */
  predicate Shielded(w: World) {
    forall k <- w.catalog :: w.catalog[k].View? || !OnOneLake(w.catalog[k].location)
  }

  /** Neither the caller's location nor Spark's own is on OneLake. */
  predicate NoExplicitOneLake(op: Op) {
    op.Create? ==> !OnOneLake(op.warehouse) && (op.location.Some? ==> !OnOneLake(op.location.value))
  }

  lemma ShadowIsLocal(c: Config, id: string, table: string)
    requires LocalShadow(c)
    ensures !OnOneLake(ShadowPath(c, id, table))
  {
    assert ShadowPath(c, id, table)[0] == c.shadowRoot[0] == 'f';
  }

  lemma PathOnOneLake(c: Config, id: string, table: string, schema: string)
    ensures OnOneLake(OneLakePath(c, id, table, schema))
  {
    var rest := WorkspaceFor(c, id) + "@" + c.host + "/" + id + "/" + Names.OneLakePath(id, table, schema).1;
    assert OneLakePath(c, id, table, schema) == "abfss://" + rest;
  }

  lemma ResolvedOnOneLake(c: Config, s: Store, ident: Ident)
    ensures Resolve(c, s, ident).Some? ==> OnOneLake(Resolve(c, s, ident).value.1) && Resolve(c, s, ident).value.1 in s
  {
    hide OneLakePath, OnOneLake;
    var found := Names.LakehouseAndSchema(c.lakehouses, ident.ns);
    if found.Some? {
      var cased := c.listing(found.value.0, found.value.1, ident.name);
      PathOnOneLake(c, found.value.0, ident.name, found.value.1);
      PathOnOneLake(c, found.value.0, cased.GetOr(""), found.value.1);
    }
  }

  lemma SameOneLake(s0: Store, s1: Store, at: string)
    requires OnlyAt(s0, s1, at) && !OnOneLake(at)
    ensures OneLakeOf(s1) == OneLakeOf(s0)
  {
    assert forall p :: p in OneLakeOf(s1) <==> p in OneLakeOf(s0);
  }

  lemma StaysShielded(w0: World, w1: World, ident: Ident)
    requires OnlyEntry(w0.catalog, w1.catalog, ident)
    requires w1.catalog[Key(ident)].Table? ==> !OnOneLake(w1.catalog[Key(ident)].location)
    ensures Shielded(w0) ==> Shielded(w1)
  {
  }

  /** A materialized lakehouse table can be written on OneLake only in writethrough, and only
      there does materializing it leave a way to. */
  lemma MaterializedIsShielded(c: Config, w0: World, ident: Ident, id: string, src: string, w1: World)
    requires LocalShadow(c) && OnOneLake(src) && Materialized(c, w0, ident, id, src, w1)
    ensures w1.catalog[Key(ident)].Table? && OnOneLake(w1.catalog[Key(ident)].location) <==> c.mode == Writethrough
    ensures OneLakeOf(w1.store) == OneLakeOf(w0.store)
    ensures c.mode != Writethrough && Shielded(w0) ==> Shielded(w1)
  {
    hide OneLakePath;
    ShadowIsLocal(c, id, Names.ShadowName(c.lakehouses, ident.ns, ident.name));
    SameOneLake(w0.store, w1.store, Shadow(c, ident, id));
  }

  lemma TouchIsShielded(c: Config, w0: World, ident: Ident, r: Outcome, w1: World)
    requires LocalShadow(c) && Touches(c, w0, ident, r, w1)
    ensures OneLakeOf(w1.store) == OneLakeOf(w0.store)
    ensures c.mode != Writethrough && Shielded(w0) ==> Shielded(w1)
  {
    hide Materialized, OneLakeOf;
    ResolvedOnOneLake(c, w0.store, ident);
    var found := Resolve(c, w0.store, ident);
    if Key(ident) !in w0.catalog && found.Some? {
      MaterializedIsShielded(c, w0, ident, found.value.0, found.value.1, w1);
    }
  }

  /** Outside writethrough no operation changes OneLake or exposes it. */
  lemma StepIsShielded(c: Config, w0: World, op: Op, r: Outcome, w1: World)
    requires c.mode != Writethrough && LocalShadow(c) && Shielded(w0) && NoExplicitOneLake(op)
    requires Does(c, w0, op, r, w1)
    ensures Shielded(w1) && OneLakeOf(w1.store) == OneLakeOf(w0.store)
  {
    hide Materialized, Resolve, OneLakeOf;
    match op
    case Touch(ident) => TouchIsShielded(c, w0, ident, r, w1);
    case Create(ident, _, _, _) =>
      if r == Done {
        SameOneLake(w0.store, w1.store, w1.catalog[Key(ident)].location);
      }
    case Write(ident, data) =>
      var t, touched :| Touches(c, w0, ident, touched, t) &&
        if touched != Done then r == NotFound && w1 == w0
        else if t.catalog[Key(ident)].View? then r == Refused && w1 == t
        else && r == Done && w1.catalog == t.catalog && ReadOf(w1, ident) == Some(data)
             && OnlyAt(t.store, w1.store, t.catalog[Key(ident)].location);
      TouchIsShielded(c, w0, ident, touched, t);
      if r == Done {
        SameOneLake(t.store, w1.store, t.catalog[Key(ident)].location);
      }
    case Local(_, _) =>
  }

  /** A run: the worlds it goes through, and what each operation answers. */
  ghost predicate Run(c: Config, ws: seq<World>, ops: seq<Op>, rs: seq<Outcome>) {
    && |ws| == |ops| + 1 && |rs| == |ops|
    && forall i :: 0 <= i < |ops| ==> Does(c, ws[i], ops[i], rs[i], ws[i + 1])
  }

  /** In sandbox and readonly, after any operations at all, OneLake is what it was, and every
      registered table is a local one or a view. */
  lemma {:induction false} NonInterference(c: Config, ws: seq<World>, ops: seq<Op>, rs: seq<Outcome>)
    requires c.mode != Writethrough && LocalShadow(c) && Run(c, ws, ops, rs) && Shielded(ws[0])
    requires forall op <- ops :: NoExplicitOneLake(op)
    ensures forall w <- ws :: OneLakeOf(w.store) == OneLakeOf(ws[0].store) && Shielded(w)
    decreases |ops|
  {
    hide Does, OneLakeOf, Shielded, NoExplicitOneLake;
    if ops == [] {
    } else {
      var n := |ops| - 1;
      NonInterference(c, ws[..n + 1], ops[..n], rs[..n]);
      assert ws[n] in ws[..n + 1];
      StepIsShielded(c, ws[n], ops[n], rs[n], ws[n + 1]);
      assert ws == ws[..n + 1] + [ws[n + 1]];
    }
  }

  /** Whatever is refused, or names nothing, leaves what is stored as it was; and unless it is a
      write to a table that is first touched, the catalog too. */
  lemma RefusedChangesNothing(c: Config, w0: World, op: Op, r: Outcome, w1: World)
    requires Does(c, w0, op, r, w1) && r != Done
    ensures w1.store == w0.store
    ensures w1 == w0 || (op.Write? && Key(op.ident) !in w0.catalog && r == Refused)
  {
    if op.Write? && r == Refused && Key(op.ident) !in w0.catalog {
      var t, touched :| Touches(c, w0, op.ident, touched, t) && t.catalog[Key(op.ident)].View? && w1 == t;
    }
  }

  /** Writethrough is needed: there, a touched table is written on OneLake itself. */
  lemma WritethroughWrites(c: Config, w0: World, ident: Ident, data: string, r: Outcome, w1: World)
    requires c.mode == Writethrough && Key(ident) !in w0.catalog && Resolve(c, w0.store, ident).Some?
    requires Writes(c, w0, ident, data, r, w1)
    ensures r == Done && OneLakeOf(w1.store) == OneLakeOf(w0.store)[Resolve(c, w0.store, ident).value.1 := data]
  {
    hide OneLakePath, Shadow;
    ResolvedOnOneLake(c, w0.store, ident);
  }

  /** What a table resolves to depends on OneLake alone. */
  lemma ResolvesTheSame(c: Config, s0: Store, s1: Store, ident: Ident)
    requires OneLakeOf(s0) == OneLakeOf(s1)
    ensures Resolve(c, s0, ident) == Resolve(c, s1, ident)
  {
    hide OneLakePath, OnOneLake;
    forall p | OnOneLake(p)
      ensures p in s0 <==> p in s1
    {
      assert p in OneLakeOf(s0) <==> p in OneLakeOf(s1);
    }
    var found := Names.LakehouseAndSchema(c.lakehouses, ident.ns);
    if found.Some? {
      var cased := c.listing(found.value.0, found.value.1, ident.name);
      PathOnOneLake(c, found.value.0, ident.name, found.value.1);
      PathOnOneLake(c, found.value.0, cased.GetOr(""), found.value.1);
    }
  }

  /** A sandbox table keeps what was written to it: a later session, which starts with an empty
      catalog and spells the table the same way, reads it too. */
  lemma SandboxKeepsWrites(c: Config, w0: World, ident: Ident, data: string, w1: World, r: Outcome, w2: World)
    requires c.mode != Writethrough && LocalShadow(c) && Key(ident) !in w0.catalog && Resolve(c, w0.store, ident).Some?
    requires Writes(c, w0, ident, data, Done, w1) && Touches(c, World(w1.store, map[]), ident, r, w2)
    ensures r == Done && ReadOf(w2, ident) == ReadOf(w1, ident) == Some(data)
    ensures OneLakeOf(w1.store) == OneLakeOf(w0.store)
  {
    hide OneLakePath, ShadowPath, OneLakeOf, Resolve, Touches;
    WritesShadow(c, w0, ident, data, w1);
    OtherSpellingReads(c, w0, ident, data, w1, ident, r, w2);
  }

  /** What the first read of a table of OneLake gives outside writethrough. */
  function ReadFirst(c: Config, s: Store, ident: Ident): Option<string> {
    match Resolve(c, s, ident)
    case None => None
    case Some(found) =>
      var shadow := Shadow(c, ident, found.0);
      ReadAt(s, if shadow in s then shadow else found.1)
  }

  /** A lakehouse table that is replaced in the sandbox reads as what was put in it; in a later
      session it still does exactly when its database has no schema, or the table it then reads,
      the materialized copy or OneLake's own, says the same. */
  lemma ReplacedIsReadBackIff(c: Config, w0: World, ident: Ident, lakehouse: string, ns: seq<string>, data: string,
                              warehouse: string, w1: World, r: Outcome, w2: World)
    requires c.mode == Sandbox && LocalShadow(c)
    requires Names.NamesTable(c.lakehouses, lakehouse, ns) && Some(ident.ns) == Names.Db(lakehouse, ns)
    requires Resolve(c, w0.store, ident).Some?
    requires Creates(c, w0, ident, None, warehouse, data, Done, w1) && Touches(c, World(w1.store, map[]), ident, r, w2)
    ensures r == Done && ReadOf(w1, ident) == Some(data)
    ensures ReadOf(w2, ident) == Some(data) <==> ns == [] || ReadFirst(c, w0.store, ident) == Some(data)
  {
    hide OneLakePath, ShadowPath, OneLakeOf, Resolve, Names.LakehouseAndSchema, Names.ShadowName, Names.NamesTable;
    var found, at := Resolve(c, w0.store, ident).value, w1.catalog[Key(ident)].location;
    ResolvedLakehouse(c, w0.store, ident);
    ResolvedOnOneLake(c, w0.store, ident);
    ShadowIsLocal(c, found.0, ident.name);
    ShadowIsLocal(c, found.0, Names.ShadowName(c.lakehouses, ident.ns, ident.name));
    SameOneLake(w0.store, w1.store, at);
    ResolvesTheSame(c, w0.store, w1.store, ident);
    Names.NewTableDropsSchema(c.lakehouses, lakehouse, ns, ident.name);
    ShadowPathInjective(c, found.0, ident.name, Names.ShadowName(c.lakehouses, ident.ns, ident.name));
  }

  // ---- spelling ----

  lemma SameKey(c: Config, a: Ident, b: Ident)
    requires Key(a) == Key(b)
    ensures var fa, fb := Names.LakehouseAndSchema(c.lakehouses, a.ns), Names.LakehouseAndSchema(c.lakehouses, b.ns);
            && (fa.Some? <==> fb.Some?) && (fa.Some? ==> fa.value.0 == fb.value.0)
            && |a.name| == |b.name|
  {
    hide Names.LakehouseAndSchema;
    Names.LowerLookup(c.lakehouses, a.ns);
    Names.LowerLookup(c.lakehouses, b.ns);
    assert |Lower(a.name)| == |Lower(b.name)|;
  }

  /** The shadow has the spelling of the touch that made it: a later session that spells the table
      in another case reads what was written when that makes the same directory, and otherwise what
      it would have read without the write: another shadow, or OneLake's table. */
  lemma OtherSpellingReads(c: Config, w0: World, ident: Ident, data: string, w1: World,
                            again: Ident, r: Outcome, w2: World)
    requires c.mode != Writethrough && LocalShadow(c) && Key(again) == Key(ident)
    requires Key(ident) !in w0.catalog && Resolve(c, w0.store, ident).Some?
    requires Writes(c, w0, ident, data, Done, w1) && Touches(c, World(w1.store, map[]), again, r, w2)
    ensures r == Done <==> Resolve(c, w0.store, again).Some?
    ensures r == Done ==>
              ReadOf(w2, again) == if Names.ShadowName(c.lakehouses, again.ns, again.name)
                                      == Names.ShadowName(c.lakehouses, ident.ns, ident.name)
                                   then Some(data) else ReadFirst(c, w0.store, again)
  {
    hide OneLakePath, ShadowPath, OneLakeOf, Resolve, Names.LakehouseAndSchema, Names.ShadowName;
    var found := Resolve(c, w0.store, ident).value;
    WritesShadow(c, w0, ident, data, w1);
    ResolvesTheSame(c, w0.store, w1.store, again);
    if r == Done {
      SameKey(c, ident, again);
      ResolvedLakehouse(c, w0.store, ident);
      ResolvedLakehouse(c, w0.store, again);
      ResolvedOnOneLake(c, w0.store, again);
      ShadowIsLocal(c, found.0, Names.ShadowName(c.lakehouses, ident.ns, ident.name));
      ShadowPathInjective(c, found.0, Names.ShadowName(c.lakehouses, ident.ns, ident.name),
                          Names.ShadowName(c.lakehouses, again.ns, again.name));
    }
  }

  /** A first write outside writethrough changes the shadow and nothing else. */
  lemma WritesShadow(c: Config, w0: World, ident: Ident, data: string, w1: World)
    requires c.mode != Writethrough && LocalShadow(c)
    requires Key(ident) !in w0.catalog && Resolve(c, w0.store, ident).Some? && Writes(c, w0, ident, data, Done, w1)
    ensures var shadow := Shadow(c, ident, Resolve(c, w0.store, ident).value.0);
            && OnlyAt(w0.store, w1.store, shadow) && shadow in w1.store && w1.store[shadow] == data
    ensures OneLakeOf(w1.store) == OneLakeOf(w0.store)
  {
    hide OneLakePath, ShadowPath, OneLakeOf, Resolve;
    var t, touched :| Touches(c, w0, ident, touched, t) && touched == Done && t.catalog[Key(ident)].Table?
                      && w1.catalog == t.catalog && ReadOf(w1, ident) == Some(data)
                      && OnlyAt(t.store, w1.store, t.catalog[Key(ident)].location);
    var found := Resolve(c, w0.store, ident).value;
    ResolvedOnOneLake(c, w0.store, ident);
    ShadowIsLocal(c, found.0, Names.ShadowName(c.lakehouses, ident.ns, ident.name));
    SameOneLake(w0.store, w1.store, Shadow(c, ident, found.0));
  }

  // ---- isolation ----

  /** A create leaves what another registered table reads alone exactly when that is registered
      elsewhere, or already says the same. */
  lemma CreateKeepsOtherIff(c: Config, w0: World, ident: Ident, location: Option<string>, warehouse: string,
                            data: string, w1: World, other: Ident)
    requires Creates(c, w0, ident, location, warehouse, data, Done, w1)
    requires Key(other) in w0.catalog && Key(other) != Key(ident)
    ensures ReadOf(w1, other) == ReadOf(w0, other)
       <==> PlaceOf(w0.catalog[Key(other)]) != w1.catalog[Key(ident)].location || ReadOf(w0, other) == Some(data)
  {
    hide OneLakePath, ShadowPath, Key;
  }

  /** And so does a write, whether it touches the table first or not. */
  lemma WriteKeepsOtherIff(c: Config, w0: World, ident: Ident, data: string, w1: World, other: Ident)
    requires Writes(c, w0, ident, data, Done, w1) && Key(other) in w0.catalog && Key(other) != Key(ident)
    ensures ReadOf(w1, other) == ReadOf(w0, other)
       <==> PlaceOf(w0.catalog[Key(other)]) != PlaceOf(w1.catalog[Key(ident)]) || ReadOf(w0, other) == Some(data)
  {
    hide OneLakePath, ShadowPath, Resolve, Key;
    ResolvedOnOneLake(c, w0.store, ident);
    var t, touched :| Touches(c, w0, ident, touched, t) && touched == Done && t.catalog[Key(ident)].Table?
                      && w1.catalog == t.catalog && ReadOf(w1, ident) == Some(data)
                      && OnlyAt(t.store, w1.store, t.catalog[Key(ident)].location);
  }

  /** A touch leaves what every other table reads alone. */
  lemma TouchKeepsOther(c: Config, w0: World, ident: Ident, r: Outcome, w1: World, other: Ident)
    requires Touches(c, w0, ident, r, w1) && Key(other) != Key(ident) && ReadOf(w0, other).Some?
    ensures ReadOf(w1, other) == ReadOf(w0, other)
  {
    hide OneLakePath, ShadowPath, Resolve, Key;
  }

  /** Lakehouse ids are no paths. */
  predicate PlainIds(c: Config) {
    forall id <- c.lakehouses.Values :: '/' !in id
  }

  lemma FoundIsPlain(c: Config, ns: string)
    requires PlainIds(c) && Names.LakehouseAndSchema(c.lakehouses, ns).Some?
    ensures '/' !in Names.LakehouseAndSchema(c.lakehouses, ns).value.0
  {
  }

  /** A table created in the sandbox takes the place of one that was touched before exactly when
      both are of one lakehouse and its name is that of the other's directory: the other's own
      name outside a schema, the schema, a dot and the name inside one. Its own schema does not
      matter. */
  lemma NamesakeIsOverwrittenIff(c: Config, w0: World, other: Ident, w1: World, ident: Ident, warehouse: string,
                                 data: string, w2: World, lakehouse1: string, ns1: seq<string>,
                                 lakehouse2: string, ns2: seq<string>)
    requires c.mode == Sandbox && LocalShadow(c) && PlainIds(c)
    requires Names.NamesTable(c.lakehouses, lakehouse1, ns1) && Some(ident.ns) == Names.Db(lakehouse1, ns1)
    requires Names.NamesTable(c.lakehouses, lakehouse2, ns2) && Some(other.ns) == Names.Db(lakehouse2, ns2)
    requires Key(other) !in w0.catalog && Touches(c, w0, other, Done, w1) && w1.catalog[Key(other)].Table?
    requires Key(other) != Key(ident) && Creates(c, w1, ident, None, warehouse, data, Done, w2)
    ensures ReadOf(w2, other) == ReadOf(w1, other)
       <==> || !(&& Names.IdOf(c.lakehouses, lakehouse1) == Names.IdOf(c.lakehouses, lakehouse2)
                 && ident.name == if ns2 == [] then other.name else ns2[0] + "." + other.name)
            || ReadOf(w1, other) == Some(data)
  {
    hide OneLakePath, ShadowPath, OneLakeOf, Resolve, Names.LakehouseAndSchema, Names.ShadowName;
    var found := Resolve(c, w0.store, other).value;
    ResolvedLakehouse(c, w0.store, other);
    ResolvedOnOneLake(c, w0.store, other);
    Names.DbLooksUp(c.lakehouses, lakehouse1, ns1);
    Names.DbLooksUp(c.lakehouses, lakehouse2, ns2);
    Names.ShadowNameIs(c.lakehouses, lakehouse2, ns2, other.name);
    FoundIsPlain(c, ident.ns);
    FoundIsPlain(c, other.ns);
    var id1 := Names.LakehouseAndSchema(c.lakehouses, ident.ns).value.0;
    var id2 := Names.LakehouseAndSchema(c.lakehouses, other.ns).value.0;
    ShadowIsLocal(c, id1, ident.name);
    ShadowPathsApart(c, id1, ident.name, id2, Names.ShadowName(c.lakehouses, other.ns, other.name));
    CreateKeepsOtherIff(c, w1, ident, None, warehouse, data, w2, other);
  }

  /** Shadows of two lakehouses, or with two names, are two. */
  lemma ShadowPathsApart(c: Config, id1: string, a: string, id2: string, b: string)
    requires '/' !in id1 && '/' !in id2
    ensures ShadowPath(c, id1, a) == ShadowPath(c, id2, b) <==> id1 == id2 && a == b
  {
    var root := c.shadowRoot + "/";
    if ShadowPath(c, id1, a) == ShadowPath(c, id2, b) {
      assert ShadowPath(c, id1, a)[|root|..] == id1 + ['/'] + a;
      assert ShadowPath(c, id2, b)[|root|..] == id2 + ['/'] + b;
      FirstOfHead(id1, '/', a);
      FirstOfHead(id2, '/', b);
      var rest := id1 + ['/'] + a;
      assert id1 == rest[..|id1|] && a == rest[|id1| + 1..];
      assert id2 == rest[..|id2|] && b == rest[|id2| + 1..];
    }
  }

  /** Where the sandbox keeps a table: as it is touched, or as it is created, in some spelling. */
  ghost predicate Located(c: Config, k: Ident, e: Entry) {
    match Names.LakehouseAndSchema(c.lakehouses, k.ns)
    case None => true
    case Some(found) =>
      if e.View? then OnOneLake(e.source)
      else exists i: Ident :: Key(i) == k && e.location in {Shadow(c, i, found.0), ShadowPath(c, found.0, i.name)}
  }

  ghost predicate Placed(c: Config, w: World) {
    forall k <- w.catalog :: Located(c, k, w.catalog[k])
  }

  /** Two tables that can be given one directory: they are of one lakehouse, and a name that one
      of them can have there is one that the other can have, in any case. */
  predicate Meets(c: Config, a: Ident, b: Ident) {
    var fa, fb := Names.LakehouseAndSchema(c.lakehouses, a.ns), Names.LakehouseAndSchema(c.lakehouses, b.ns);
    && fa.Some? && fb.Some? && fa.value.0 == fb.value.0
    && exists n <- DirNames(c, a) :: n in DirNames(c, b)
  }

  function DirNames(c: Config, a: Ident): set<string> {
    {Lower(a.name), Lower(Names.ShadowName(c.lakehouses, a.ns, a.name))}
  }

  predicate OfLakehouse(c: Config, ident: Ident) {
    Names.LakehouseAndSchema(c.lakehouses, ident.ns).Some?
  }

  /** A touch, a write, or a create without a location, of a lakehouse table. */
  predicate TableOp(c: Config, op: Op) {
    !op.Local? && OfLakehouse(c, op.ident) && (op.Create? ==> op.location.None?)
  }

  lemma LocatedIn(c: Config, ident: Ident, e: Entry)
    requires OfLakehouse(c, ident)
    requires var id := Names.LakehouseAndSchema(c.lakehouses, ident.ns).value.0;
             if e.View? then OnOneLake(e.source)
             else e.location in {Shadow(c, ident, id), ShadowPath(c, id, ident.name)}
    ensures Located(c, Key(ident), e)
  {
    hide Names.LakehouseAndSchema, ShadowPath, Shadow;
    Names.LowerLookup(c.lakehouses, ident.ns);
  }

  lemma TouchPlaces(c: Config, w0: World, ident: Ident, r: Outcome, w1: World)
    requires c.mode != Writethrough && LocalShadow(c) && Placed(c, w0) && Touches(c, w0, ident, r, w1)
    ensures Placed(c, w1)
  {
    hide Located, OneLakePath, ShadowPath, Resolve, Key;
    ResolvedOnOneLake(c, w0.store, ident);
    var found := Resolve(c, w0.store, ident);
    if Key(ident) !in w0.catalog && found.Some? {
      ResolvedLakehouse(c, w0.store, ident);
      ShadowIsLocal(c, found.value.0, Names.ShadowName(c.lakehouses, ident.ns, ident.name));
      LocatedIn(c, ident, w1.catalog[Key(ident)]);
    }
  }

  lemma PlacedStep(c: Config, w0: World, op: Op, r: Outcome, w1: World)
    requires c.mode != Writethrough && LocalShadow(c) && Placed(c, w0) && TableOp(c, op) && Does(c, w0, op, r, w1)
    ensures Placed(c, w1)
  {
    hide Located, OneLakePath, ShadowPath, Resolve, Key, Materialized;
    match op
    case Touch(ident) => TouchPlaces(c, w0, ident, r, w1);
    case Create(ident, _, _, _) =>
      if r == Done {
        LocatedIn(c, ident, w1.catalog[Key(ident)]);
      }
    case Write(ident, data) =>
      var t, touched :| Touches(c, w0, ident, touched, t) && (r != NotFound ==> w1.catalog == t.catalog)
                        && (r == NotFound ==> w1 == w0);
      TouchPlaces(c, w0, ident, touched, t);
  }

  /** Tables that are in one place meet. */
  lemma SamePlaceMeets(c: Config, a: Ident, ea: Entry, b: Ident, eb: Entry)
    requires PlainIds(c) && OfLakehouse(c, a) && OfLakehouse(c, b)
    requires Located(c, Key(a), ea) && Located(c, Key(b), eb) && ea.Table? && eb.Table? && ea.location == eb.location
    ensures Meets(c, a, b)
  {
    hide Names.LakehouseAndSchema, Names.ShadowName, ShadowPath;
    var i, n := DirNameOf(c, a, ea);
    var j, m := DirNameOf(c, b, eb);
    FoundIsPlain(c, a.ns);
    FoundIsPlain(c, b.ns);
    ShadowPathsApart(c, Names.LakehouseAndSchema(c.lakehouses, a.ns).value.0, n,
                     Names.LakehouseAndSchema(c.lakehouses, b.ns).value.0, m);
    assert Lower(n) in DirNames(c, a) && Lower(n) in DirNames(c, b);
  }

  lemma DirNameOf(c: Config, a: Ident, e: Entry) returns (i: Ident, n: string)
    requires OfLakehouse(c, a) && Located(c, Key(a), e) && e.Table?
    ensures e.location == ShadowPath(c, Names.LakehouseAndSchema(c.lakehouses, a.ns).value.0, n)
    ensures Lower(n) in DirNames(c, a)
  {
    hide Names.LakehouseAndSchema, Names.ShadowName, ShadowPath;
    Names.LowerLookup(c.lakehouses, a.ns);
    var id := Names.LakehouseAndSchema(c.lakehouses, a.ns).value.0;
    i :| Key(i) == Key(a) && e.location in {Shadow(c, i, id), ShadowPath(c, id, i.name)};
    Names.LowerShadowName(c.lakehouses, i.ns, i.name);
    Names.LowerShadowName(c.lakehouses, a.ns, a.name);
    n := if e.location == ShadowPath(c, id, i.name) then i.name
         else Names.ShadowName(c.lakehouses, i.ns, i.name);
  }

  /** What an operation on a table does not meet reads as before. */
  lemma OtherKept(c: Config, w0: World, op: Op, r: Outcome, w1: World, other: Ident)
    requires c.mode != Writethrough && LocalShadow(c) && PlainIds(c) && Placed(c, w0)
    requires TableOp(c, op) && Does(c, w0, op, r, w1) && Key(other) != Key(op.ident)
    requires OfLakehouse(c, other) && ReadOf(w0, other).Some? && !Meets(c, op.ident, other)
    ensures ReadOf(w1, other) == ReadOf(w0, other)
  {
    hide Located, OneLakePath, ShadowPath, Resolve, Key, Materialized, Meets, Creates;
    PlacedStep(c, w0, op, r, w1);
    var e := w0.catalog[Key(other)];
    match op
    case Touch(ident) => TouchKeepsOther(c, w0, ident, r, w1, other);
    case Create(ident, location, warehouse, data) =>
      if r == Done {
        CreateKeepsOtherIff(c, w0, ident, location, warehouse, data, w1, other);
        CreatedIsLocal(c, w0, ident, warehouse, data, w1);
        ApartFromOther(c, ident, w1.catalog[Key(ident)], other, e);
      } else {
        RefusedChangesNothing(c, w0, op, r, w1);
      }
    case Write(ident, data) =>
      if r == Done {
        WriteKeepsOtherIff(c, w0, ident, data, w1, other);
        ApartFromOther(c, ident, w1.catalog[Key(ident)], other, e);
      } else {
        RefusedKeepsOther(c, w0, ident, data, r, w1, other);
      }
  }

  lemma RefusedKeepsOther(c: Config, w0: World, ident: Ident, data: string, r: Outcome, w1: World, other: Ident)
    requires Writes(c, w0, ident, data, r, w1) && r != Done && Key(other) != Key(ident) && ReadOf(w0, other).Some?
    ensures ReadOf(w1, other) == ReadOf(w0, other)
  {
    hide Key, Resolve, Materialized;
    if r == Refused {
      var touched :| Touches(c, w0, ident, touched, w1);
      TouchKeepsOther(c, w0, ident, touched, w1, other);
    }
  }

  lemma CreatedIsLocal(c: Config, w0: World, ident: Ident, warehouse: string, data: string, w1: World)
    requires c.mode != Writethrough && OfLakehouse(c, ident)
    requires Creates(c, w0, ident, None, warehouse, data, Done, w1)
    ensures Key(ident) in w1.catalog && w1.catalog[Key(ident)].Table?
    ensures !OnOneLake(w1.catalog[Key(ident)].location)
  {
    hide Key;
  }

  /** A table's place is not that of one it does not meet. */
  lemma ApartFromOther(c: Config, ident: Ident, e: Entry, other: Ident, o: Entry)
    requires LocalShadow(c) && PlainIds(c) && OfLakehouse(c, ident) && OfLakehouse(c, other) && !Meets(c, ident, other)
    requires Located(c, Key(ident), e) && Located(c, Key(other), o) && e.Table?
    ensures PlaceOf(e) != PlaceOf(o)
  {
    hide Meets, Names.LakehouseAndSchema, Names.ShadowName;
    if o.Table? {
      if e.location == o.location {
        SamePlaceMeets(c, ident, e, other, o);
      }
    } else {
      var i, n := DirNameOf(c, ident, e);
      ShadowIsLocal(c, Names.LakehouseAndSchema(c.lakehouses, ident.ns).value.0, n);
      Names.LowerLookup(c.lakehouses, other.ns);
    }
  }

  /** Isolation, over any run in sandbox and readonly: whatever is done to tables that it does not
      meet, and however often, a registered lakehouse table reads as before. */
  lemma {:induction false} Isolation(c: Config, ws: seq<World>, ops: seq<Op>, rs: seq<Outcome>, other: Ident)
    requires c.mode != Writethrough && LocalShadow(c) && PlainIds(c) && Run(c, ws, ops, rs) && Placed(c, ws[0])
    requires OfLakehouse(c, other) && ReadOf(ws[0], other).Some?
    requires forall op <- ops :: TableOp(c, op) && Key(op.ident) != Key(other) && !Meets(c, op.ident, other)
    ensures ReadOf(ws[|ops|], other) == ReadOf(ws[0], other) && Placed(c, ws[|ops|])
    decreases |ops|
  {
    hide Does, ReadOf, Placed, Meets, OfLakehouse, Key, TableOp;
    if ops == [] {
    } else {
      var n := |ops| - 1;
      Isolation(c, ws[..n + 1], ops[..n], rs[..n], other);
      assert ops[n] in ops;
      PlacedStep(c, ws[n], ops[n], rs[n], ws[n + 1]);
      OtherKept(c, ws[n], ops[n], rs[n], ws[n + 1], other);
    }
  }

  lemma ResolvedLakehouse(c: Config, s: Store, ident: Ident)
    requires Resolve(c, s, ident).Some?
    ensures Names.LakehouseAndSchema(c.lakehouses, ident.ns).Some?
    ensures Names.LakehouseAndSchema(c.lakehouses, ident.ns).value.0 == Resolve(c, s, ident).value.0
  {
  }

  lemma ShadowPathInjective(c: Config, id: string, a: string, b: string)
    ensures ShadowPath(c, id, a) == ShadowPath(c, id, b) <==> a == b
  {
    var root := c.shadowRoot + "/" + id + "/";
    assert ShadowPath(c, id, a)[|root|..] == a && ShadowPath(c, id, b)[|root|..] == b;
  }

  // ---- concrete runs ----

  function Demo(mode: Mode): Config {
    Config(mode, Clone, "w", map[], "h", "file:s", map["lh" := "1"], (_, _, name) => Some(Lower(name)), _ => false)
  }

  /** The lakehouse, and its schema dbo. */
  lemma DemoNames(mode: Mode)
    ensures var lhs := Demo(mode).lakehouses;
            && Names.NamesTable(lhs, "lh", []) && Names.NamesTable(lhs, "lh", ["dbo"])
            && Names.Db("lh", ["dbo"]) == Some("lh__dbo")
            && Names.LakehouseAndSchema(lhs, "lh") == Some(("1", ""))
            && Names.LakehouseAndSchema(lhs, "lh__dbo") == Some(("1", "dbo"))
    ensures LocalShadow(Demo(mode)) && PlainIds(Demo(mode))
  {
    var lhs := Demo(mode).lakehouses;
    assert Lower("lh") == "lh" && |Lower("lh__dbo")| == 7;
    assert "lh" + Names.SEP + "dbo" == "lh__dbo";
    var s := "_" + "dbo";
    assert s[0..2] == "_d" && s[1..3] == "db" && s[2..4] == "bo";
    assert forall i :: 0 <= i <= 2 ==> !OccursAt(s, Names.SEP, i);
    Names.DbLooksUp(lhs, "lh", ["dbo"]);
  }

  /** Creating lh__dbo.t in the sandbox overwrites what lh.t reads. */
  method NamesakeIsOverwritten() returns (before: Option<string>, after: Option<string>)
    ensures before == Some("top") && after == Some("other")
  {
    var c, top, ident := Demo(Sandbox), Ident("lh", "t"), Ident("lh__dbo", "t");
    DemoNames(Sandbox);
    var rt := new Runtime(c, map[OneLakePath(c, "1", "t", "") := "top"]);
    ghost var w0 := rt.W();
    var _ := rt.LoadTable(top);
    ghost var w1 := rt.W();
    before := ReadOf(rt.W(), top);
    var _ := rt.CreateTable(ident, None, "", "other");
    NamesakeIsOverwrittenIff(c, w0, top, w1, ident, "", "other", rt.W(), "lh", ["dbo"], "lh", []);
    after := ReadOf(rt.W(), top);
  }

  /** Creating it in writethrough overwrites lh.t on OneLake. */
  method NamesakeOnOneLake() returns (path: string, after: Option<string>)
    ensures path == OneLakePath(Demo(Writethrough), "1", "t", "") && after == Some("other")
  {
    var c := Demo(Writethrough);
    path := OneLakePath(c, "1", "t", "");
    DemoNames(Writethrough);
    PathOnOneLake(c, "1", "t", "");
    var rt := new Runtime(c, map[path := "top"]);
    var _ := rt.CreateTable(Ident("lh__dbo", "t"), None, "", "other");
    ShadowIsLocal(c, "1", "t");
    after := ReadAt(rt.store, path);
  }

  /** What replaces lh__dbo.t in the sandbox is not what the next session reads. */
  method ReplacedIsForgotten() returns (first: Option<string>, next: Option<string>)
    ensures first == Some("new") && next == Some("old")
  {
    var c, ident := Demo(Sandbox), Ident("lh__dbo", "t");
    DemoNames(Sandbox);
    var rt := new Runtime(c, map[OneLakePath(c, "1", "t", "dbo") := "old"]);
    ghost var w0 := rt.W();
    var _ := rt.CreateTable(ident, None, "", "new");
    first := ReadOf(rt.W(), ident);
    var later := new Runtime(c, rt.store);
    var r := later.LoadTable(ident);
    next := ReadOf(later.W(), ident);
    ReplacedIsReadBackIff(c, w0, ident, "lh", ["dbo"], "new", "", rt.W(), r, later.W());
  }

  lemma DemoSpelling(s: Store)
    requires s == map[OneLakePath(Demo(Sandbox), "1", "t", "") := "theirs"]
    ensures var c, ident, again := Demo(Sandbox), Ident("lh", "t"), Ident("lh", "T");
            && Key(again) == Key(ident) && Resolve(c, s, ident).Some? && Resolve(c, s, again).Some?
            && Names.ShadowName(c.lakehouses, "lh", "t") == "t" && Names.ShadowName(c.lakehouses, "lh", "T") == "T"
            && ReadFirst(c, s, again) == Some("theirs")
  {
    hide OneLakePath, ShadowPath, Names.LakehouseAndSchema, Names.ShadowName, Names.NamesTable, PlainIds;
    var c := Demo(Sandbox);
    DemoNames(Sandbox);
    Names.ShadowNameIs(c.lakehouses, "lh", [], "t");
    Names.ShadowNameIs(c.lakehouses, "lh", [], "T");
    LowerT();
    PathOnOneLake(c, "1", "t", "");
    ShadowIsLocal(c, "1", "T");
    OneLakePathInjective(c, "1", "t", "T");
  }

  lemma LowerT()
    ensures Lower("T") == "t" == Lower("t") && "T" != "t"
  {
    assert "T"[0] != "t"[0];
  }

  lemma WriteIsDone(c: Config, w0: World, ident: Ident, data: string, r: Outcome, w1: World)
    requires c.mode != Writethrough && (forall src :: !c.hasVectors(src))
    requires Key(ident) !in w0.catalog && Resolve(c, w0.store, ident).Some? && Writes(c, w0, ident, data, r, w1)
    ensures r == Done && ReadOf(w1, ident) == Some(data)
  {
    hide Resolve, Key, Shadow;
  }

  lemma OneLakePathInjective(c: Config, id: string, a: string, b: string)
    ensures OneLakePath(c, id, a, "") == OneLakePath(c, id, b, "") <==> a == b
  {
    var root := "abfss://" + WorkspaceFor(c, id) + "@" + c.host + "/" + id + "/" + "Tables/";
    assert OneLakePath(c, id, a, "") == root + a && OneLakePath(c, id, b, "") == root + b;
    assert (root + a)[|root|..] == a && (root + b)[|root|..] == b;
  }

  lemma SpelledReads(w0: World, wrote: Outcome, w1: World, r: Outcome, w2: World)
    requires w0 == World(map[OneLakePath(Demo(Sandbox), "1", "t", "") := "theirs"], map[])
    requires Writes(Demo(Sandbox), w0, Ident("lh", "t"), "mine", wrote, w1)
    requires Touches(Demo(Sandbox), World(w1.store, map[]), Ident("lh", "T"), r, w2)
    ensures ReadOf(w1, Ident("lh", "t")) == Some("mine") && ReadOf(w2, Ident("lh", "T")) == Some("theirs")
  {
    hide Resolve, ReadFirst, Names.ShadowName, OneLakePath, Touches, Writes, Key, ReadOf, PlainIds, Names.NamesTable;
    var c, ident, again := Demo(Sandbox), Ident("lh", "t"), Ident("lh", "T");
    DemoNames(Sandbox);
    DemoSpelling(w0.store);
    WriteIsDone(c, w0, ident, "mine", wrote, w1);
    OtherSpellingReads(c, w0, ident, "mine", w1, again, r, w2);
    assert "T" != "t" && "mine" != "theirs" by {
      assert "T"[0] != "t"[0];
    }
  }

  /** What is written to lh.t in the sandbox is not what the next session reads from lh.T. */
  method SpelledOtherwise() returns (first: Option<string>, next: Option<string>)
    ensures first == Some("mine") && next == Some("theirs")
  {
    hide Resolve, Touches, Writes, Key, OneLakePath, ReadOf, Demo, OneLakeOf, Shielded;
    var c, ident, again := Demo(Sandbox), Ident("lh", "t"), Ident("lh", "T");
    DemoNames(Sandbox);
    var rt := new Runtime(c, map[OneLakePath(c, "1", "t", "") := "theirs"]);
    ghost var w0 := rt.W();
    var wrote := rt.WriteTable(ident, "mine");
    first := ReadOf(rt.W(), ident);
    var later := new Runtime(c, rt.store);
    var r := later.LoadTable(again);
    next := ReadOf(later.W(), again);
    SpelledReads(w0, wrote, rt.W(), r, later.W());
  }
}
