/**
 The foreign calls of the Spark driver, as small contracts. Every call may fail, and a write may silently store
 something else; each such event is counted as a fault, so "no fault" is a statement about the count.
*/
module Cluster {
  import opened Wrappers
  import opened Bags
  import opened GraphConfiguration
  import opened Frames
  import opened Meaning
  import opened ExchangePaths

  /** What a run learned: the row count read back, the exchanges it set out to delete, and which of them it saw. */
  datatype Observation =
    | ReadBack(table: string, rows: nat)
    | DeleteAttempt(path: Path)
    | Seen(path: Path, present: bool)

  ghost predicate Holds(objects: map<Path, Frame>, path: Path) {
    exists p :: p in objects && Under(path, p)
  }

  /** The entries a recursive delete leaves, when it does not get to these. */
  function Without(objects: map<Path, Frame>, path: Path, kept: set<Path>): map<Path, Frame> {
    map p | p in objects && (!Under(path, p) || p in kept) :: objects[p]
  }

  /** One store is what remains of another after some deletes. */
  ghost predicate Remains(after: map<Path, Frame>, before: map<Path, Frame>) {
    forall p :: p in after ==> p in before && after[p] == before[p]
  }

  /** The entry lies in the tree of one of the paths. */
  predicate Covered(paths: seq<Path>, p: Path) {
    exists u :: u in paths && Under(u, p)
  }

  /** Two object stores agree outside the trees of the given paths. */
  ghost predicate SameOutside(a: map<Path, Frame>, b: map<Path, Frame>, paths: seq<Path>) {
    forall p :: !Covered(paths, p) ==> (p in a <==> p in b) && (p in a ==> a[p] == b[p])
  }

  lemma SameOutsideTransitive(a: map<Path, Frame>, b: map<Path, Frame>, c: map<Path, Frame>, paths: seq<Path>)
    requires SameOutside(a, b, paths) && SameOutside(b, c, paths)
    ensures SameOutside(a, c, paths)
  {
  }

  lemma SameOutsideWider(a: map<Path, Frame>, b: map<Path, Frame>, few: seq<Path>, many: seq<Path>)
    requires SameOutside(a, b, few) && forall u :: u in few ==> u in many
    ensures SameOutside(a, b, many)
  {
  }

  /** The named table exists and has these columns. */
  ghost predicate Readable(tables: map<string, Frame>, table: string, fields: seq<string>) {
    table in tables && forall f :: f in fields ==> f in tables[table].columns
  }

  /** The selected columns of a table's rows. */
  function Selected(rows: seq<Row>, fields: seq<string>): seq<Row> {
    Map(Pick(Identity(fields), fields), rows)
  }

  /** Whether the join and its projection refer to existing columns only. */
  ghost predicate JoinDefined(l: Frame, r: Frame, g: KeyedJoinGraph) {
    g.left.joinKey in l.columns && g.right.joinKey in r.columns &&
    var left, right := ByTarget(g.left.mappings), ByTarget(g.right.mappings);
    forall f :: f in g.transformFields ==>
      if f in right then right[f] in r.columns else f in left && left[f] in l.columns
  }

  class Session {
    var objects: map<Path, Frame>
    var tables: map<string, Frame>
    var observations: seq<Observation>
    var faults: nat

    /** The text rows of the referenced configuration object; None stands for a row that is not a string. */
    const configuration: seq<Option<string>>
    const dynamicAllocation: string
    const executorInstances: int

    constructor (configuration: seq<Option<string>>, dynamicAllocation: string, executorInstances: int)
      ensures objects == map[] && tables == map[] && observations == [] && faults == 0
      ensures this.configuration == configuration && this.dynamicAllocation == dynamicAllocation
      ensures this.executorInstances == executorInstances
    {
      objects, tables, observations, faults := map[], map[], [], 0;
      this.configuration, this.dynamicAllocation := configuration, dynamicAllocation;
      this.executorInstances := executorInstances;
    }

    /** A call that only succeeds or fails: importing, starting, configuring, resolving a file system, stopping. */
    method Call() returns (ok: bool)
      modifies `faults
      ensures faults == if ok then old(faults) else old(faults) + 1
    {
      ok := *;
      if !ok {
        faults := faults + 1;
      }
    }

    /** Reading at most two text rows of the referenced configuration. */
    method ReadConfiguration() returns (rows: Option<seq<Option<string>>>)
      modifies `faults
      ensures faults >= old(faults)
      ensures rows.None? ==> faults > old(faults)
      ensures rows.Some? ==> rows.value == configuration[..if |configuration| < 2 then |configuration| else 2]
    {
      var ok := Call();
      rows := if ok then Some(configuration[..if |configuration| < 2 then |configuration| else 2]) else None;
    }

    /** The two conf reads of the executor plan. */
    method ReadExecutorPlan() returns (plan: Option<(string, int)>)
      modifies `faults
      ensures faults >= old(faults)
      ensures plan.None? ==> faults > old(faults)
      ensures plan.Some? ==> plan.value == (dynamicAllocation, executorInstances)
    {
      var ok := Call();
      plan := if ok then Some((dynamicAllocation, executorInstances)) else None;
    }

    /** Reading the named columns of a warehouse table. */
    method ReadTable(table: string, fields: seq<string>) returns (r: Option<Frame>)
      modifies `faults
      ensures faults >= old(faults)
      ensures faults == old(faults) ==> (r.Some? <==> Readable(tables, table, fields))
      ensures faults == old(faults) && r.Some? ==> r.value.columns == fields
      ensures faults == old(faults) && r.Some? ==> Bag(r.value) == multiset(Selected(Rows(tables[table]), fields))
    {
      var ok := Call();
      if !ok || table !in tables || exists f :: f in fields && f !in tables[table].columns {
        return None;
      }
      var rows := Selected(Rows(tables[table]), fields);
      assert Flatten([rows]) == rows;
      return Some(Frame(fields, [rows]));
    }

    method Count(f: Frame) returns (n: Option<nat>)
      modifies `faults
      ensures faults >= old(faults)
      ensures faults == old(faults) ==> n == Some(|Rows(f)|)
    {
      var ok := Call();
      if ok {
        return Some(|Rows(f)|);
      }
      n := *;
    }

    /** Repartitioning and writing an exchange that must not exist yet: any partitioning that keeps the bag of rows. */
    method WriteExchange(f: Frame, path: Path) returns (ok: bool)
      modifies `objects, `faults
      ensures faults >= old(faults)
      ensures faults == old(faults) ==> (ok <==> !old(Holds(objects, path)))
      ensures faults == old(faults) && ok ==> path in objects && objects == old(objects)[path := objects[path]]
      ensures faults == old(faults) && ok ==> objects[path].columns == f.columns && Bag(objects[path]) == Bag(f)
      ensures faults == old(faults) && !ok ==> objects == old(objects)
      ensures SameOutside(old(objects), objects, [path])
    {
      var called := Call();
      if !called {
        var partial: Frame := *;
        var effect: bool := *;
        if effect {
          assert path in [path] && Covered([path], path);
          objects := objects[path := partial];
        }
        ok := *;
        return;
      }
      if exists p :: p in objects && Under(path, p) {
        return false;
      }
      assert path in [path] && Covered([path], path);
      objects := objects[path := f];
      return true;
    }

    method ReadExchange(path: Path) returns (r: Option<Frame>)
      modifies `faults
      ensures faults >= old(faults)
      ensures faults == old(faults) ==> (r.Some? <==> path in objects)
      ensures faults == old(faults) && r.Some? ==>
        r.value.columns == objects[path].columns && Bag(r.value) == Bag(objects[path])
    {
      var ok := Call();
      return if ok && path in objects then Some(objects[path]) else None;
    }

    /** A lazily analysed projection. */
    method Project(f: Frame, ms: seq<DirectMapping>, fields: seq<string>) returns (r: Option<Frame>)
      modifies `faults
      ensures faults >= old(faults)
      ensures faults == old(faults) ==> r == ProjectFrame(f, ms, fields)
    {
      var ok := Call();
      return if ok then ProjectFrame(f, ms, fields) else None;
    }

    /** The inner join on the key columns followed by the qualified projection. */
    method Join(l: Frame, r: Frame, g: KeyedJoinGraph) returns (j: Option<Frame>)
      modifies `faults
      ensures faults >= old(faults)
      ensures faults == old(faults) ==> (j.Some? <==> JoinDefined(l, r, g))
      ensures faults == old(faults) && j.Some? ==> j.value.columns == g.transformFields
      ensures faults == old(faults) && j.Some? ==> exists joined ::
        multiset(joined) == multiset(JoinRows(Rows(l), Rows(r), g.left.joinKey, g.right.joinKey)) &&
        Rows(j.value) == Map(PickPair(ByTarget(g.left.mappings), ByTarget(g.right.mappings), g.transformFields), joined)
    {
      var ok := Call();
      var left, right := ByTarget(g.left.mappings), ByTarget(g.right.mappings);
      if !ok || g.left.joinKey !in l.columns || g.right.joinKey !in r.columns ||
         exists f :: f in g.transformFields &&
           !(if f in right then right[f] in r.columns else f in left && left[f] in l.columns) {
        return None;
      }
      var joined := JoinRows(Rows(l), Rows(r), g.left.joinKey, g.right.joinKey);
      var rows := Map(PickPair(left, right, g.transformFields), joined);
      assert Flatten([rows]) == rows;
      return Some(Frame(g.transformFields, [rows]));
    }

    /** Overwriting a warehouse table, which is not atomic under a fault. */
    method Overwrite(table: string, f: Frame) returns (ok: bool)
      modifies `tables, `faults
      ensures faults >= old(faults)
      ensures !ok ==> faults > old(faults)
      ensures faults == old(faults) ==> table in tables && tables == old(tables)[table := tables[table]]
      ensures faults == old(faults) ==> tables[table].columns == f.columns && Bag(tables[table]) == Bag(f)
      ensures forall t :: t != table ==>
        (t in tables <==> t in old(tables)) && (t in tables ==> tables[t] == old(tables)[t])
    {
      ok := Call();
      if ok {
        tables := tables[table := f];
      } else {
        var damaged: Frame := *;
        tables := tables[table := damaged];
        ok := *;
      }
    }

    method CountTable(table: string) returns (n: Option<nat>)
      modifies `observations, `faults
      ensures faults >= old(faults)
      ensures observations == old(observations) + if n.Some? then [ReadBack(table, n.value)] else []
      ensures n.None? && table in tables ==> faults > old(faults)
      ensures n.Some? && faults == old(faults) ==> table in tables && n.value == |Rows(tables[table])|
    {
      var ok := Call();
      if !ok {
        n := *;
      } else {
        n := if table in tables then Some(|Rows(tables[table])|) else None;
      }
      observations := observations + if n.Some? then [ReadBack(table, n.value)] else [];
    }

    /** A recursive delete: under a fault it may raise or return having removed any part of the tree. */
    method Delete(path: Path) returns (raised: bool)
      modifies `objects, `faults
      ensures faults >= old(faults)
      ensures Remains(objects, old(objects)) && SameOutside(old(objects), objects, [path])
      ensures faults == old(faults) ==> !raised && !Holds(objects, path)
    {
      assert path in [path];
      var ok := Call();
      if ok {
        objects := Without(objects, path, {});
        return false;
      }
      var kept: set<Path> := *;
      objects := Without(objects, path, kept);
      raised := *;
    }

    /** An existence check: it answers truly or raises. */
    method Exists(path: Path) returns (present: Option<bool>)
      modifies `observations, `faults
      ensures faults >= old(faults)
      ensures present.None? ==> faults > old(faults) && observations == old(observations)
      ensures present.Some? ==> (present.value <==> Holds(objects, path))
      ensures present.Some? ==> observations == old(observations) + [Seen(path, present.value)]
    {
      var ok := Call();
      if !ok {
        return None;
      }
      var found := exists p :: p in objects && Under(path, p);
      observations := observations + [Seen(path, found)];
      return Some(found);
    }
  }
}
