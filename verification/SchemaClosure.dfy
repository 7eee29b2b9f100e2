/** The schemas an OpenAPI document keeps when only some of its paths are served
    (admin_openapi.py). */
module SchemaClosure {
  import opened Results

  /** A value of the document; a dict lists its entries in order. */
  datatype Node =
    | Text(s: string)
    | Dict(entries: seq<Entry>)
    | Items(items: seq<Node>)
    | Scalar

  datatype Entry = Entry(key: string, value: Node)

  type Schemas = map<string, Node>

  const REF := "#/components/schemas/"
  const ADMIN_PREFIX := "/api/v1/admin/"

  /** `entries.get(key)`. */
  function Get(entries: seq<Entry>, key: string): Option<Node> {
    if entries == [] then None
    else if entries[0].key == key then Some(entries[0].value)
    else Get(entries[1..], key)
  }

  /** The name a dict's own `$ref` gives, if it is one of a component schema. */
  function RefOf(entries: seq<Entry>): Option<string> {
    match Get(entries, "$ref")
    case Some(Text(s)) => if REF <= s then Some(s[|REF|..]) else None
    case _ => None
  }

  /** Whether a dict anywhere in the node refers to the schema of this name. */
  ghost predicate Mentions(node: Node, name: string) {
    match node
    case Dict(entries) => RefOf(entries) == Some(name)
        || exists i :: 0 <= i < |entries| && Mentions(entries[i].value, name)
    case Items(items) => exists i :: 0 <= i < |items| && Mentions(items[i], name)
    case _ => false
  }

  /** A chain of known schemas: the node mentions the first, each one the next. */
  ghost predicate Chain(node: Node, schemas: Schemas, path: seq<string>) {
    && |path| > 0
    && Mentions(node, path[0])
    && (forall i :: 0 <= i < |path| ==> path[i] in schemas)
    && (forall i :: 0 < i < |path| ==> Mentions(schemas[path[i - 1]], path[i]))
  }

  /** Whether the node refers to a known schema, directly or through others. */
  ghost predicate Reaches(node: Node, schemas: Schemas, name: string) {
    exists path :: Chain(node, schemas, path) && path[|path| - 1] == name
  }

  lemma MentionedIsReached(node: Node, schemas: Schemas, name: string)
    requires Mentions(node, name) && name in schemas
    ensures Reaches(node, schemas, name)
  {
    assert Chain(node, schemas, [name]);
  }

  lemma ReachesFurther(node: Node, schemas: Schemas, via: string, name: string)
    requires Reaches(node, schemas, via) && via in schemas && Mentions(schemas[via], name) && name in schemas
    ensures Reaches(node, schemas, name)
  {
    var path :| Chain(node, schemas, path) && path[|path| - 1] == via;
    assert Chain(node, schemas, path + [name]);
  }

  /** A set of names holding what the node mentions and what its own schemas mention. */
  ghost predicate Closed(node: Node, schemas: Schemas, names: set<string>) {
    && (forall name | name in schemas && Mentions(node, name) :: name in names)
    && (forall via, name | via in names && via in schemas && name in schemas
        && Mentions(schemas[via], name) :: name in names)
  }

  /** A closed set holds every name reached. */
  lemma {:induction false} ClosedHoldsChain(node: Node, schemas: Schemas, names: set<string>, path: seq<string>)
    requires Closed(node, schemas, names) && Chain(node, schemas, path)
    ensures path[|path| - 1] in names
    decreases |path|
  {
    if |path| > 1 {
      var shorter := path[..|path| - 1];
      ClosedHoldsChain(node, schemas, names, shorter);
      assert Mentions(schemas[shorter[|shorter| - 1]], path[|path| - 1]);
    }
  }

  // ---- The worklist ----

  function Size(node: Node): (n: nat)
    ensures n > 0
  {
    match node
    case Dict(entries) => 1 + EntriesSize(entries)
    case Items(items) => 1 + TotalSize(items)
    case _ => 1
  }

  function EntriesSize(entries: seq<Entry>): nat {
    if entries == [] then 0 else Size(entries[0].value) + EntriesSize(entries[1..])
  }

  function TotalSize(nodes: seq<Node>): nat {
    if nodes == [] then 0 else Size(nodes[0]) + TotalSize(nodes[1..])
  }

  function Values(entries: seq<Entry>): seq<Node> {
    seq(|entries|, i requires 0 <= i < |entries| => entries[i].value)
  }

  lemma {:induction false} ValuesSize(entries: seq<Entry>)
    ensures TotalSize(Values(entries)) == EntriesSize(entries)
  {
    if entries != [] {
      ValuesSize(entries[1..]);
      assert Values(entries)[1..] == Values(entries[1..]);
    }
  }

  lemma {:induction false} TotalSizeAppend(a: seq<Node>, b: seq<Node>)
    ensures TotalSize(a + b) == TotalSize(a) + TotalSize(b)
  {
    if a == [] {
      assert a + b == b;
    } else {
      TotalSizeAppend(a[1..], b);
      assert (a + b)[1..] == a[1..] + b;
    }
  }

  /** Whether the name is mentioned by something still to be looked at. */
  ghost predicate Pending(pending: seq<Node>, name: string) {
    exists i :: 0 <= i < |pending| && Mentions(pending[i], name)
  }

  lemma PendingAppend(a: seq<Node>, b: seq<Node>, name: string)
    ensures Pending(a + b, name) <==> Pending(a, name) || Pending(b, name)
  {
    if i :| 0 <= i < |a| && Mentions(a[i], name) { assert Mentions((a + b)[i], name); }
    if i :| 0 <= i < |b| && Mentions(b[i], name) { assert Mentions((a + b)[|a| + i], name); }
    if i :| 0 <= i < |a + b| && Mentions((a + b)[i], name) {
      assert if i < |a| then Mentions(a[i], name) else Mentions(b[i - |a|], name);
    }
  }

  lemma PendingOne(item: Node, name: string)
    ensures Pending([item], name) <==> Mentions(item, name)
  {
    if Mentions(item, name) { assert Mentions([item][0], name); }
  }

  /** A dict mentions its own reference and what its values mention. */
  lemma DictMentions(entries: seq<Entry>, name: string)
    ensures Mentions(Dict(entries), name) <==> RefOf(entries) == Some(name) || Pending(Values(entries), name)
  {
    if i :| 0 <= i < |entries| && Mentions(entries[i].value, name) { assert Mentions(Values(entries)[i], name); }
    if i :| 0 <= i < |entries| && Mentions(Values(entries)[i], name) { assert Mentions(entries[i].value, name); }
  }

  /** What holds between looking at two items: everything mentioned is found or still pending,
      and everything found or mentioned by what is pending is reached. */
  ghost predicate Inv(node: Node, schemas: Schemas, found: set<string>, pending: seq<Node>) {
    && found <= schemas.Keys
    && (forall name | name in schemas && Mentions(node, name) :: name in found || Pending(pending, name))
    && (forall via, name | via in found && name in schemas && Mentions(schemas[via], name) ::
          name in found || Pending(pending, name))
    && (forall name | name in found :: Reaches(node, schemas, name))
    && (forall name | name in schemas && Pending(pending, name) :: Reaches(node, schemas, name))
  }

  /** The invariant survives when what was mentioned by the pending items is found or pending
      again, and what is new is reached. */
  lemma InvKept(node: Node, schemas: Schemas, found: set<string>, pending: seq<Node>, next: seq<Node>)
    requires Inv(node, schemas, found, pending)
    requires forall name | name in schemas && Pending(pending, name) :: name in found || Pending(next, name)
    requires forall name | Pending(next, name) :: Pending(pending, name)
    ensures Inv(node, schemas, found, next)
  {
  }

  /** A schema found is taken in by looking at it too. */
  lemma InvFinds(node: Node, schemas: Schemas, found: set<string>, pending: seq<Node>, name: string)
    requires Inv(node, schemas, found, pending) && name in schemas && Pending(pending, name)
    ensures Inv(node, schemas, found + {name}, pending + [schemas[name]])
  {
    forall other ensures Pending(pending + [schemas[name]], other)
        <==> Pending(pending, other) || Mentions(schemas[name], other) {
      PendingAppend(pending, [schemas[name]], other);
      PendingOne(schemas[name], other);
    }
    forall other | other in schemas && Mentions(schemas[name], other) ensures Reaches(node, schemas, other) {
      ReachesFurther(node, schemas, name, other);
    }
  }

  /** A dict whose own reference is dealt with can give way to its values. */
  lemma DictGivesWay(node: Node, schemas: Schemas, found: set<string>, pre: seq<Node>, entries: seq<Entry>,
                     post: seq<Node>)
    requires Inv(node, schemas, found, pre + [Dict(entries)] + post)
    requires RefOf(entries).Some? && RefOf(entries).value in schemas ==> RefOf(entries).value in found
    ensures Inv(node, schemas, found, pre + post + Values(entries))
  {
    var before, after := pre + [Dict(entries)] + post, pre + post + Values(entries);
    forall name
      ensures Pending(before, name) <==> Pending(after, name) || RefOf(entries) == Some(name)
    {
      DictMentions(entries, name);
      PendingOne(Dict(entries), name);
      PendingAppend(pre, [Dict(entries)], name);
      PendingAppend(pre + [Dict(entries)], post, name);
      PendingAppend(pre, post, name);
      PendingAppend(pre + post, Values(entries), name);
    }
    InvKept(node, schemas, found, before, after);
  }

  /** A list gives way to its items; anything else to nothing. */
  lemma ItemGivesWay(node: Node, schemas: Schemas, found: set<string>, rest: seq<Node>, item: Node)
    requires Inv(node, schemas, found, rest + [item]) && !item.Dict?
    ensures Inv(node, schemas, found, rest + (if item.Items? then item.items else []))
  {
    var parts := if item.Items? then item.items else [];
    forall name ensures Pending(rest + [item], name) <==> Pending(rest + parts, name) {
      PendingOne(item, name);
      PendingAppend(rest, [item], name);
      PendingAppend(rest, parts, name);
    }
    InvKept(node, schemas, found, rest + [item], rest + parts);
  }

  lemma InvAtStart(node: Node, schemas: Schemas)
    ensures Inv(node, schemas, {}, [node])
  {
    forall name ensures Pending([node], name) <==> Mentions(node, name) { PendingOne(node, name); }
    forall name | name in schemas && Mentions(node, name) ensures Reaches(node, schemas, name) {
      MentionedIsReached(node, schemas, name);
    }
  }

  lemma DictRefPends(rest: seq<Node>, entries: seq<Entry>)
    requires RefOf(entries).Some?
    ensures Pending(rest + [Dict(entries)], RefOf(entries).value)
  {
    PendingOne(Dict(entries), RefOf(entries).value);
    PendingAppend(rest, [Dict(entries)], RefOf(entries).value);
  }

  lemma SmallerSet(a: set<string>, b: set<string>)
    requires a < b
    ensures |a| < |b|
  {
    var x :| x in b && x !in a;
    assert a <= b - {x};
    SubsetSize(a, b - {x});
  }

  /** What one look at an item leaves found and pending. */
  function Found(schemas: Schemas, found: set<string>, item: Node): set<string> {
    if item.Dict? && RefOf(item.entries).Some?
        && RefOf(item.entries).value in schemas then found + {RefOf(item.entries).value}
    else found
  }

  function Left(schemas: Schemas, found: set<string>, rest: seq<Node>, item: Node): seq<Node> {
    if item.Items? then rest + item.items
    else if !item.Dict? then rest
    else if Found(schemas, found, item) == found then rest + Values(item.entries)
    else rest + [schemas[RefOf(item.entries).value]] + Values(item.entries)
  }

  lemma LookKeepsInv(node: Node, schemas: Schemas, found: set<string>, rest: seq<Node>, item: Node)
    requires Inv(node, schemas, found, rest + [item])
    ensures Inv(node, schemas, Found(schemas, found, item), Left(schemas, found, rest, item))
  {
    if !item.Dict? {
      ItemGivesWay(node, schemas, found, rest, item);
      assert rest + [] == rest;
    } else if Found(schemas, found, item) == found {
      assert rest + [item] + [] == rest + [item] && rest + [] == rest;
      DictGivesWay(node, schemas, found, rest, item.entries, []);
    } else {
      var name := RefOf(item.entries).value;
      DictRefPends(rest, item.entries);
      InvFinds(node, schemas, found, rest + [item], name);
      DictGivesWay(node, schemas, found + {name}, rest, item.entries, [schemas[name]]);
    }
  }

  /** Each look finds a schema or leaves less to look at. */
  lemma LookComesToAnEnd(schemas: Schemas, found: set<string>, rest: seq<Node>, item: Node)
    ensures Found(schemas, found, item) != found ==>
              |schemas.Keys - Found(schemas, found, item)| < |schemas.Keys - found|
    ensures Found(schemas, found, item) == found
        ==> TotalSize(Left(schemas, found, rest, item)) < TotalSize(rest + [item])
  {
    TotalSizeAppend(rest, [item]);
    if Found(schemas, found, item) != found {
      SmallerSet(schemas.Keys - Found(schemas, found, item), schemas.Keys - found);
    } else if item.Dict? {
      TotalSizeAppend(rest, Values(item.entries));
      ValuesSize(item.entries);
    } else if item.Items? {
      TotalSizeAppend(rest, item.items);
    }
  }

  /** Looking at the last pending item keeps the invariant, and brings the end nearer. */
  lemma LookAtLast(node: Node, schemas: Schemas, found: set<string>, pending: seq<Node>)
    requires pending != [] && Inv(node, schemas, found, pending)
    ensures var item, rest := pending[|pending| - 1], pending[..|pending| - 1];
            var now, left := Found(schemas, found, item), Left(schemas, found, rest, item);
            && Inv(node, schemas, now, left)
            && (now != found ==> |schemas.Keys - now| < |schemas.Keys - found|)
            && (now == found ==> TotalSize(left) < TotalSize(pending))
  {
    var item, rest := pending[|pending| - 1], pending[..|pending| - 1];
    assert pending == rest + [item];
    LookKeepsInv(node, schemas, found, rest, item);
    LookComesToAnEnd(schemas, found, rest, item);
  }

  /** Takes one item up: what is found and pending after it. */
  method Look(item: Node, schemas: Schemas, found: set<string>, rest: seq<Node>)
      returns (now: set<string>, left: seq<Node>)
    ensures now == Found(schemas, found, item) && left == Left(schemas, found, rest, item)
  {
    now, left := found, rest;
    match item {
      case Dict(entries) =>
        var ref := RefOf(entries);
        if ref.Some? && ref.value !in now && ref.value in schemas {
          now := now + {ref.value};
          left := left + [schemas[ref.value]];
        }
        left := left + Values(entries);
      case Items(items) =>
        left := left + items;
      case _ =>
    }
  }

  /** Every known schema the node refers to, directly or through another, however the schemas
      refer to each other. */
  method Referenced(node: Node, schemas: Schemas) returns (found: set<string>)
    ensures found <= schemas.Keys
    ensures forall name :: name in found <==> Reaches(node, schemas, name)
    ensures Closed(node, schemas, found)
  {
    found := {};
    var pending := [node];
    InvAtStart(node, schemas);
    while pending != []
      invariant Inv(node, schemas, found, pending)
      decreases |schemas.Keys - found|, TotalSize(pending)
    {
      LookAtLast(node, schemas, found, pending);
      found, pending := Look(pending[|pending| - 1], schemas, found, pending[..|pending| - 1]);
    }
    NothingPendingIsExact(node, schemas, found);
  }

  lemma NothingPendingIsExact(node: Node, schemas: Schemas, found: set<string>)
    requires Inv(node, schemas, found, [])
    ensures Closed(node, schemas, found)
    ensures forall name :: name in found <==> Reaches(node, schemas, name)
  {
    forall name ensures name in found <==> Reaches(node, schemas, name) {
      if Reaches(node, schemas, name) {
        var path :| Chain(node, schemas, path) && path[|path| - 1] == name;
        ClosedHoldsChain(node, schemas, found, path);
      }
    }
  }

  // ---- The document ----

  function AdminPaths(paths: seq<Entry>): seq<Entry> {
    if paths == [] then []
    else (if ADMIN_PREFIX <= paths[0].key then [paths[0]] else []) + AdminPaths(paths[1..])
  }

  /** The schemas a document keeps, for the paths it serves. */
  ghost function Components(node: Node, schemas: Schemas): Schemas {
    map name | name in schemas && Reaches(node, schemas, name) :: schemas[name]
  }

  /** The admin API's paths and the schemas kept with them. */
  method AdminDocument(paths: seq<Entry>, schemas: Schemas) returns (kept: seq<Entry>, components: Schemas)
    ensures kept == AdminPaths(paths)
    ensures components == Components(Dict(kept), schemas)
  {
    kept := AdminPaths(paths);
    var names := Referenced(Dict(kept), schemas);
    components := map name | name in names :: schemas[name];
  }

  /** No reference of the kept document dangles that did not before: what it or a kept schema
      mentions, if it was known at all, is kept. */
  lemma KeptIsClosed(node: Node, schemas: Schemas, via: string, name: string)
    requires name in schemas
    requires Mentions(node, name) || (via in Components(node, schemas)
        && Mentions(Components(node, schemas)[via], name))
    ensures name in Components(node, schemas)
  {
    if Mentions(node, name) {
      MentionedIsReached(node, schemas, name);
    } else {
      ReachesFurther(node, schemas, via, name);
    }
  }

  /** Nothing more is kept than any closed choice of schemas has. */
  lemma KeptIsLeast(node: Node, schemas: Schemas, names: set<string>)
    requires Closed(node, schemas, names)
    ensures Components(node, schemas).Keys <= names
  {
    forall name | name in Components(node, schemas) ensures name in names {
      var path :| Chain(node, schemas, path) && path[|path| - 1] == name;
      ClosedHoldsChain(node, schemas, names, path);
    }
  }

  /** A chain of schemas leads through kept ones only. */
  lemma {:induction false} ChainIsKept(node: Node, schemas: Schemas, path: seq<string>)
    requires Chain(node, schemas, path)
    ensures Chain(node, Components(node, schemas), path)
    decreases |path|
  {
    var last := path[|path| - 1];
    assert Reaches(node, schemas, last);
    if |path| > 1 {
      var shorter := path[..|path| - 1];
      ChainIsKept(node, schemas, shorter);
      forall i | 0 <= i < |path| ensures path[i] in Components(node, schemas) {
        assert i < |shorter| ==> shorter[i] == path[i];
      }
    }
  }

  /** Keeping again keeps the same. */
  lemma KeptIsKept(node: Node, schemas: Schemas)
    ensures Components(node, Components(node, schemas)) == Components(node, schemas)
  {
    var kept := Components(node, schemas);
    forall name | name in kept ensures Reaches(node, kept, name) {
      var path :| Chain(node, schemas, path) && path[|path| - 1] == name;
      ChainIsKept(node, schemas, path);
    }
  }
}
