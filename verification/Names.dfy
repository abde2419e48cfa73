/** How a lakehouse, a schema and a table become a session database, a OneLake path and a
    shadow directory, and back (OneLakeCatalog.scala, OneLakeSchemaCatalog.scala, engine.py
    `_qualified` and `_shadow_tables`). */
module Names {
  import opened Text

  const SEP := "__"

  /** Lakehouse ids by lower-cased name: the catalog looks names up regardless of case. */
  type Lakehouses = map<string, string>

  function IdOf(lhs: Lakehouses, ns: string): Option<string> {
    if Lower(ns) in lhs then Some(lhs[Lower(ns)]) else None
  }

  // ---- databases ----

  /** `db` for a namespace of at most one level; deeper ones do not exist. */
  function Db(lakehouse: string, ns: seq<string>): Option<string> {
    if |ns| == 0 then Some(lakehouse)
    else if |ns| == 1 then Some(lakehouse + SEP + ns[0])
    else None
  }

  /** `lakehouseAndSchema`: the lakehouse id and the schema folder of a session database. */
  function LakehouseAndSchema(lhs: Lakehouses, ns: string): Option<(string, string)> {
    match IdOf(lhs, ns)
    case Some(id) => Some((id, ""))
    case None =>
      var sep := LastIndexOf(ns, SEP);
      if sep <= 0 then None
      else
        match IdOf(lhs, ns[..sep])
        case Some(id) => Some((id, ns[sep + |SEP|..]))
        case None => None
  }

  /** Nothing in the schema can be taken for the separator. */
  predicate PlainSchema(schema: string) {
    !Contains("_" + schema, SEP)
  }

  lemma SeparatorIsLastIff(head: string, schema: string)
    ensures LastIndexOf(head + SEP + schema, SEP) == |head| <==> PlainSchema(schema)
    ensures LastIndexOf(head + SEP + schema, SEP) >= |head|
  {
    var s, tail := head + SEP + schema, "_" + schema;
    assert OccursAt(s, SEP, |head|);
    forall i | 0 <= i <= |tail| - 2
      ensures OccursAt(tail, SEP, i) <==> OccursAt(s, SEP, |head| + 1 + i)
    {
      assert s[|head| + 1 + i..|head| + 3 + i] == tail[i..i + 2];
    }
    if LastIndexOf(s, SEP) > |head| {
      assert OccursAt(tail, SEP, LastIndexOf(s, SEP) - |head| - 1);
    }
  }

  /** `db` is inverted exactly when the schema cannot hide the separator and no lakehouse is
      itself named like the database. */
  lemma DbInvertsIff(lhs: Lakehouses, lakehouse: string, schema: string)
    requires lakehouse != "" && schema != "" && IdOf(lhs, lakehouse).Some?
    ensures LakehouseAndSchema(lhs, Db(lakehouse, [schema]).value) == Some((IdOf(lhs, lakehouse).value, schema))
       <==> PlainSchema(schema) && IdOf(lhs, lakehouse + SEP + schema) == None
  {
    var db := lakehouse + SEP + schema;
    SeparatorIsLastIff(lakehouse, schema);
    var sep := LastIndexOf(db, SEP);
    if sep == |lakehouse| {
      assert db[..sep] == lakehouse && db[sep + |SEP|..] == schema;
    } else if IdOf(lhs, db) == None && IdOf(lhs, db[..sep]).Some? {
      assert |db[sep + |SEP|..]| < |schema|;
    }
  }

  lemma LakehouseDbInverts(lhs: Lakehouses, lakehouse: string)
    requires IdOf(lhs, lakehouse).Some?
    ensures LakehouseAndSchema(lhs, Db(lakehouse, []).value) == Some((IdOf(lhs, lakehouse).value, ""))
  {
  }

  lemma LowerKeepsSeparators(s: string, i: int)
    ensures OccursAt(Lower(s), SEP, i) <==> OccursAt(s, SEP, i)
  {
    if 0 <= i <= |s| - 2 {
      assert Lower(s)[i..i + 2] == [LowerChar(s[i]), LowerChar(s[i + 1])];
      assert s[i..i + 2] == [s[i], s[i + 1]];
    }
  }

  lemma LowerLastIndex(s: string)
    ensures LastIndexOf(Lower(s), SEP) == LastIndexOf(s, SEP)
  {
    var a, b := LastIndexOf(Lower(s), SEP), LastIndexOf(s, SEP);
    LowerKeepsSeparators(s, a);
    LowerKeepsSeparators(s, b);
  }

  lemma LowerTwice(s: string)
    ensures Lower(Lower(s)) == Lower(s)
  {
  }

  /** Spark hands the catalog names in lower case; the schema then comes in lower case too. */
  lemma LowerLookup(lhs: Lakehouses, ns: string)
    ensures LakehouseAndSchema(lhs, Lower(ns))
         == match LakehouseAndSchema(lhs, ns)
            case Some(found) => Some((found.0, Lower(found.1)))
            case None => None
  {
    LowerTwice(ns);
    LowerLastIndex(ns);
    var sep := LastIndexOf(ns, SEP);
    if sep > 0 {
      assert Lower(ns)[..sep] == Lower(ns[..sep]);
      LowerTwice(ns[..sep]);
      assert Lower(ns)[sep + |SEP|..] == Lower(ns[sep + |SEP|..]);
    }
    assert Lower("") == "";
  }

  lemma DbLooksUp(lhs: Lakehouses, lakehouse: string, ns: seq<string>)
    requires NamesTable(lhs, lakehouse, ns)
    ensures LakehouseAndSchema(lhs, Db(lakehouse, ns).value)
         == Some((IdOf(lhs, lakehouse).value, if |ns| == 1 then ns[0] else ""))
  {
    if |ns| == 1 {
      DbInvertsIff(lhs, lakehouse, ns[0]);
      assert ns == [ns[0]];
    }
  }

  /** Namespaces that Spark cannot tell apart. */
  predicate SameNamespace(ns1: seq<string>, ns2: seq<string>) {
    |ns1| == |ns2| && forall i :: 0 <= i < |ns1| ==> Lower(ns1[i]) == Lower(ns2[i])
  }

  /** Distinct lakehouses or schemas have distinct databases, also for a catalog that ignores
      case: databases that differ at most in case belong to one lakehouse, and to schemas that
      differ at most in case. */
  lemma DbInjective(lhs: Lakehouses, lakehouse1: string, ns1: seq<string>, lakehouse2: string, ns2: seq<string>)
    requires NamesTable(lhs, lakehouse1, ns1) && NamesTable(lhs, lakehouse2, ns2)
    requires Lower(Db(lakehouse1, ns1).value) == Lower(Db(lakehouse2, ns2).value)
    ensures IdOf(lhs, lakehouse1) == IdOf(lhs, lakehouse2) && SameNamespace(ns1, ns2)
    ensures Db(lakehouse1, ns1) == Db(lakehouse2, ns2) ==> ns1 == ns2
  {
    hide LakehouseAndSchema, Lower;
    var db1, db2 := Db(lakehouse1, ns1).value, Db(lakehouse2, ns2).value;
    DbLooksUp(lhs, lakehouse1, ns1);
    DbLooksUp(lhs, lakehouse2, ns2);
    LowerLookup(lhs, db1);
    LowerLookup(lhs, db2);
    assert |Lower("")| == 0;
    assert |ns1| == 1 ==> |Lower(ns1[0])| > 0;
    assert |ns2| == 1 ==> |Lower(ns2[0])| > 0;
    assert |ns1| == 1 ==> ns1 == [ns1[0]];
    assert |ns2| == 1 ==> ns2 == [ns2[0]];
  }

  /** A registered lakehouse, and a schema of it that has no confusing name, or none. */
  predicate NamesTable(lhs: Lakehouses, lakehouse: string, ns: seq<string>) {
    && lakehouse != "" && IdOf(lhs, lakehouse).Some? && |ns| <= 1
    && (|ns| == 1 ==> ns[0] != "" && PlainSchema(ns[0]) && IdOf(lhs, lakehouse + SEP + ns[0]) == None)
  }

  /** A database is known exactly when it is a lakehouse, or a lakehouse, the separator and the rest
      with no later separator in it. */
  lemma KnownIff(lhs: Lakehouses, db: string)
    ensures LakehouseAndSchema(lhs, db).Some?
       <==> || IdOf(lhs, db).Some?
            || exists head, schema ::
                 head != "" && db == head + "__" + schema && PlainSchema(schema) && IdOf(lhs, head).Some?
  {
    var sep := LastIndexOf(db, SEP);
    if IdOf(lhs, db) == None && LakehouseAndSchema(lhs, db).Some? {
      var head, schema := db[..sep], db[sep + |SEP|..];
      assert db == head + "__" + schema;
      SeparatorIsLastIff(head, schema);
    }
    forall head, schema | head != "" && db == head + "__" + schema && PlainSchema(schema) && IdOf(lhs, head).Some?
      ensures LakehouseAndSchema(lhs, db).Some?
    {
      SeparatorIsLastIff(head, schema);
      assert db[..sep] == head;
    }
  }

  // ---- the lakehouse's own catalog ----

  datatype Identifier = Identifier(namespace: seq<string>, name: string)

  /** `translate`; None where it throws. */
  function Translate(lakehouse: string, ident: Identifier): Option<Identifier> {
    match Db(lakehouse, ident.namespace)
    case Some(db) => Some(Identifier([db], ident.name))
    case None => None
  }

  /** `back`. */
  function Back(lakehouse: string, ident: Identifier): Identifier {
    var d, prefix := if ident.namespace == [] then "" else ident.namespace[0], lakehouse + SEP;
    if prefix <= d then Identifier([d[|prefix|..]], ident.name) else Identifier([], ident.name)
  }

  /** Every identifier that can be translated comes back, whatever its schema is called. */
  lemma BackInvertsTranslate(lakehouse: string, ident: Identifier)
    ensures Translate(lakehouse, ident).Some? <==> |ident.namespace| <= 1
    ensures |ident.namespace| <= 1 ==> Back(lakehouse, Translate(lakehouse, ident).value) == ident
  {
    if |ident.namespace| == 1 {
      var d, prefix := lakehouse + SEP + ident.namespace[0], lakehouse + SEP;
      assert d[|prefix|..] == ident.namespace[0];
    }
  }

  /** A session table comes from its lakehouse identifier exactly when its database is the
      lakehouse's or one of the lakehouse's schemas. */
  lemma TranslateInvertsBackIff(lakehouse: string, ident: Identifier)
    ensures Translate(lakehouse, Back(lakehouse, ident)) == Some(ident)
       <==> |ident.namespace| == 1 && (ident.namespace[0] == lakehouse || lakehouse + SEP <= ident.namespace[0])
  {
    var prefix := lakehouse + SEP;
    if ident.namespace != [] && prefix <= ident.namespace[0] {
      var d := ident.namespace[0];
      assert prefix + d[|prefix|..] == d;
      assert Db(lakehouse, [d[|prefix|..]]) == Some(d);
      assert |ident.namespace| == 1 <==> ident.namespace == [d];
    } else {
      assert ident.namespace == [lakehouse] <==> |ident.namespace| == 1 && ident.namespace[0] == lakehouse;
    }
  }

  // ---- tables on OneLake ----

  /** A listed table: `table` or `schema/table`. */
  function Qualified(lakehouse: string, entry: string): (string, string) {
    var i := FirstOf(entry, '/');
    if i < |entry| then (lakehouse + SEP + entry[..i], entry[i + 1..]) else (lakehouse, entry)
  }

  /** Where the catalog looks for a table, below the lakehouse: `oneLakePath`. */
  function OneLakePath(id: string, table: string, schema: string): (string, string) {
    (id, if schema == "" then "Tables/" + table else "Tables/" + schema + "/" + table)
  }

  function Resolved(lhs: Lakehouses, db: string, table: string): Option<(string, string)> {
    match LakehouseAndSchema(lhs, db)
    case Some(found) => Some(OneLakePath(found.0, table, found.1))
    case None => None
  }

  /** Where a listed entry is looked up. */
  function Looked(lhs: Lakehouses, lakehouse: string, entry: string): Option<(string, string)> {
    var q := Qualified(lakehouse, entry);
    Resolved(lhs, q.0, q.1)
  }

  /** A listed entry is looked up where it was listed, exactly when its database is inverted. */
  lemma ListedIsResolvedIff(lhs: Lakehouses, lakehouse: string, schema: string, table: string)
    requires lakehouse != "" && schema != "" && '/' !in schema && IdOf(lhs, lakehouse).Some?
    ensures Looked(lhs, lakehouse, schema + "/" + table)
         == Some((IdOf(lhs, lakehouse).value, "Tables/" + schema + "/" + table))
       <==> PlainSchema(schema) && IdOf(lhs, lakehouse + SEP + schema) == None
  {
    var entry := schema + "/" + table;
    FirstOfHead(schema, '/', table);
    assert entry[..|schema|] == schema && entry[|schema| + 1..] == table;
    DbInvertsIff(lhs, lakehouse, schema);
    var found := LakehouseAndSchema(lhs, lakehouse + SEP + schema);
    if found.Some? && OneLakePath(found.value.0, table, found.value.1).1 == "Tables/" + schema + "/" + table {
      SamePath(found.value.1, schema, table);
    }
  }

  lemma SamePath(a: string, b: string, table: string)
    requires b != ""
    requires OneLakePath("", table, a).1 == "Tables/" + b + "/" + table
    ensures a == b
  {
    var l, r := OneLakePath("", table, a).1, "Tables/" + b + "/" + table;
    assert |l| == |r|;
    if a != "" {
      assert |a| == |b|;
      assert l[7..7 + |a|] == a && r[7..7 + |b|] == b;
    }
  }

  /** A table at the top of Tables/ is always looked up there. */
  lemma TopLevelIsResolved(lhs: Lakehouses, lakehouse: string, table: string)
    requires '/' !in table && IdOf(lhs, lakehouse).Some?
    ensures Looked(lhs, lakehouse, table) == Some((IdOf(lhs, lakehouse).value, "Tables/" + table))
  {
  }

  // ---- shadow directories ----

  /** `shadowName`. */
  function ShadowName(lhs: Lakehouses, ns: string, table: string): string {
    var sep := LastIndexOf(ns, SEP);
    if sep > 0 && IdOf(lhs, ns) == None then ns[sep + |SEP|..] + "." + table else table
  }

  /** The directory a table is materialized in, below the shadow root. */
  function ShadowDir(lhs: Lakehouses, ns: string, table: string): Option<(string, string)> {
    match LakehouseAndSchema(lhs, ns)
    case Some(found) => Some((found.0, ShadowName(lhs, ns, table)))
    case None => None
  }

  /** What `_shadow_tables` reports for a directory of the lakehouse with this name. */
  function ShadowTable(lakehouse: string, dir: string): (string, string) {
    var i := FirstOf(dir, '.');
    if i < |dir| then (lakehouse + SEP + dir[..i], dir[i + 1..]) else (lakehouse, dir)
  }

  lemma ShadowNameIs(lhs: Lakehouses, lakehouse: string, ns: seq<string>, table: string)
    requires NamesTable(lhs, lakehouse, ns)
    ensures ShadowName(lhs, Db(lakehouse, ns).value, table) == if ns == [] then table else ns[0] + "." + table
  {
    if ns != [] {
      SchemaShadow(lhs, lakehouse, ns[0], table);
      assert ns == [ns[0]];
    }
  }

  lemma LowerShadowName(lhs: Lakehouses, ns: string, table: string)
    ensures Lower(ShadowName(lhs, ns, table)) == ShadowName(lhs, Lower(ns), Lower(table))
  {
    var sep := LastIndexOf(ns, SEP);
    LowerLastIndex(ns);
    LowerTwice(ns);
    if sep > 0 && IdOf(lhs, ns) == None {
      var schema := ns[sep + |SEP|..];
      assert Lower(ns)[sep + |SEP|..] == Lower(schema);
      assert Lower(schema + "." + table) == Lower(schema) + "." + Lower(table);
    }
  }

  /** The directory of a schema's table. */
  lemma SchemaShadow(lhs: Lakehouses, lakehouse: string, schema: string, table: string)
    requires NamesTable(lhs, lakehouse, [schema])
    ensures ShadowDir(lhs, Db(lakehouse, [schema]).value, table)
         == Some((IdOf(lhs, lakehouse).value, schema + "." + table))
  {
    var db := lakehouse + SEP + schema;
    DbInvertsIff(lhs, lakehouse, schema);
    SeparatorIsLastIff(lakehouse, schema);
    assert db[|lakehouse| + |SEP|..] == schema;
  }

  lemma SchemaDecodesIff(lakehouse: string, schema: string, table: string)
    ensures ShadowTable(lakehouse, schema + "." + table) == (lakehouse + SEP + schema, table) <==> '.' !in schema
  {
    var dir := schema + "." + table;
    assert dir[|schema|] == '.';
    if '.' !in schema {
      FirstOfHead(schema, '.', table);
      assert dir[..|schema|] == schema && dir[|schema| + 1..] == table;
    } else {
      var j :| 0 <= j < |schema| && schema[j] == '.';
      assert dir[j] == '.';
      assert |lakehouse + SEP + dir[..FirstOf(dir, '.')]| < |lakehouse + SEP + schema|;
    }
  }

  lemma TopDecodesIff(lakehouse: string, table: string)
    ensures ShadowTable(lakehouse, table) == (lakehouse, table) <==> '.' !in table
  {
    var i := FirstOf(table, '.');
    if i < |table| {
      assert |lakehouse + SEP + table[..i]| > |lakehouse|;
    } else {
      assert forall j :: 0 <= j < |table| ==> table[j] != '.';
    }
  }

  /** A directory is reported as the table it was made for exactly when the part before the
      table cannot be cut short: no dot in the schema, or none in a top-level table's name. */
  lemma ShadowDecodesIff(lhs: Lakehouses, lakehouse: string, ns: seq<string>, table: string)
    requires NamesTable(lhs, lakehouse, ns)
    ensures ShadowDir(lhs, Db(lakehouse, ns).value, table).Some?
    ensures ShadowTable(lakehouse, ShadowDir(lhs, Db(lakehouse, ns).value, table).value.1)
         == (Db(lakehouse, ns).value, table)
       <==> '.' !in Leading(ns, table)
  {
    hide ShadowTable;
    if |ns| == 1 {
      SchemaShadow(lhs, lakehouse, ns[0], table);
      assert ns == [ns[0]];
      SchemaDecodesIff(lakehouse, ns[0], table);
    } else {
      TopShadow(lhs, lakehouse, table);
      TopDecodesIff(lakehouse, table);
    }
  }

  lemma TopShadow(lhs: Lakehouses, lakehouse: string, table: string)
    requires IdOf(lhs, lakehouse).Some?
    ensures ShadowDir(lhs, lakehouse, table) == Some((IdOf(lhs, lakehouse).value, table))
  {
  }

  /** What a directory's name starts with. */
  function Leading(ns: seq<string>, table: string): string {
    if |ns| == 1 then ns[0] else table
  }

  /** What a directory says of itself: the schema, if any, and the table. */
  function Shown(dir: string): (seq<string>, string) {
    var i := FirstOf(dir, '.');
    if i < |dir| then ([dir[..i]], dir[i + 1..]) else ([], dir)
  }

  lemma ShownIs(lhs: Lakehouses, lakehouse: string, ns: seq<string>, table: string)
    requires NamesTable(lhs, lakehouse, ns) && '.' !in Leading(ns, table)
    ensures ShadowDir(lhs, Db(lakehouse, ns).value, table).Some?
    ensures ShadowDir(lhs, Db(lakehouse, ns).value, table).value.0 == IdOf(lhs, lakehouse).value
    ensures Shown(ShadowDir(lhs, Db(lakehouse, ns).value, table).value.1) == (ns, table)
  {
    if |ns| == 1 {
      SchemaShadow(lhs, lakehouse, ns[0], table);
      FirstOfHead(ns[0], '.', table);
      var dir := ns[0] + "." + table;
      assert ns == [ns[0]] && dir[..|ns[0]|] == ns[0] && dir[|ns[0]| + 1..] == table;
    } else {
      TopShadow(lhs, lakehouse, table);
      assert FirstOf(table, '.') == |table|;
    }
  }

  /** Directories of one lakehouse that differ at most in case. */
  predicate SameDir(d1: Option<(string, string)>, d2: Option<(string, string)>) {
    d1.Some? && d2.Some? && d1.value.0 == d2.value.0 && Lower(d1.value.1) == Lower(d2.value.1)
  }

  lemma LowerKeepsDot(s: string)
    ensures FirstOf(Lower(s), '.') == FirstOf(s, '.')
  {
    var i, j := FirstOf(Lower(s), '.'), FirstOf(s, '.');
    assert i < |s| ==> s[i] == '.';
    assert j < |s| ==> Lower(s)[j] == '.';
  }

  lemma LowerShown(dir: string)
    ensures |Shown(Lower(dir)).0| == |Shown(dir).0| <= 1
    ensures |Shown(dir).0| == 1 ==> Shown(Lower(dir)).0[0] == Lower(Shown(dir).0[0])
    ensures Shown(Lower(dir)).1 == Lower(Shown(dir).1)
  {
    LowerKeepsDot(dir);
    var i := FirstOf(dir, '.');
    if i < |dir| {
      assert Lower(dir)[..i] == Lower(dir[..i]) && Lower(dir)[i + 1..] == Lower(dir[i + 1..]);
    }
  }

  /** Tables whose directories decode have directories of their own, even on a disk that ignores
      case: directories that differ at most in case are for one table. */
  lemma ShadowsApart(lhs: Lakehouses, lakehouse1: string, ns1: seq<string>, table1: string,
                     lakehouse2: string, ns2: seq<string>, table2: string)
    requires NamesTable(lhs, lakehouse1, ns1) && '.' !in Leading(ns1, table1)
    requires NamesTable(lhs, lakehouse2, ns2) && '.' !in Leading(ns2, table2)
    requires SameDir(ShadowDir(lhs, Db(lakehouse1, ns1).value, table1),
                     ShadowDir(lhs, Db(lakehouse2, ns2).value, table2))
    ensures IdOf(lhs, lakehouse1) == IdOf(lhs, lakehouse2) && SameNamespace(ns1, ns2) && Lower(table1) == Lower(table2)
    ensures ShadowDir(lhs, Db(lakehouse1, ns1).value, table1) == ShadowDir(lhs, Db(lakehouse2, ns2).value, table2) ==>
              ns1 == ns2 && table1 == table2
  {
    hide ShadowDir, Shown, Lower;
    ShownIs(lhs, lakehouse1, ns1, table1);
    ShownIs(lhs, lakehouse2, ns2, table2);
    LowerShown(ShadowDir(lhs, Db(lakehouse1, ns1).value, table1).value.1);
    LowerShown(ShadowDir(lhs, Db(lakehouse2, ns2).value, table2).value.1);
  }

  /** A top-level table called `dbo.t` and the table t of schema dbo share a directory. */
  lemma DottedTableCollides(lhs: Lakehouses, lakehouse: string, schema: string, table: string)
    requires NamesTable(lhs, lakehouse, [schema])
    ensures ShadowDir(lhs, lakehouse, schema + "." + table)
         == ShadowDir(lhs, lakehouse + SEP + schema, table)
    ensures schema + "." + table != table
  {
    SchemaShadow(lhs, lakehouse, schema, table);
    assert |schema + "." + table| > |table|;
  }

  /** Where `policed` puts a new table in a sandbox: the schema is dropped. */
  function NewTableDir(lhs: Lakehouses, ns: string, table: string): Option<(string, string)> {
    match LakehouseAndSchema(lhs, ns)
    case Some(found) => Some((found.0, table))
    case None => None
  }

  /** A new table has the directory of its materialized form only outside a schema; inside one
      it has that of the new top-level table of the same name. */
  lemma NewTableDropsSchema(lhs: Lakehouses, lakehouse: string, ns: seq<string>, table: string)
    requires NamesTable(lhs, lakehouse, ns)
    ensures NewTableDir(lhs, Db(lakehouse, ns).value, table) == NewTableDir(lhs, lakehouse, table)
    ensures NewTableDir(lhs, Db(lakehouse, ns).value, table) == ShadowDir(lhs, Db(lakehouse, ns).value, table)
       <==> ns == []
  {
    if |ns| == 1 {
      DbInvertsIff(lhs, lakehouse, ns[0]);
      SchemaShadow(lhs, lakehouse, ns[0], table);
      assert |ns[0] + "." + table| > |table|;
    }
  }
}
