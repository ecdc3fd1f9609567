/** The map from a path to an object handle. `crates/mtpfs/src/tree.rs`. */
module PathTree {
  import opened Bytes
  import opened Wrappers

  type Handle = U32

  const ROOT: Handle := 0
  const MAX_DEPTH := 256

  datatype Entry = Entry(handle: Handle, parent: Handle, name: string, isDir: bool, size: nat)

  datatype LookupResult = Found(h: Handle) | NeedListing(folder: Handle) | NotFound

  // ----- paths -----

  /** The text before the first separator, and the text after it. */
  function Head(path: string): string {
    if path == [] || path[0] == '/' then [] else [path[0]] + Head(path[1..])
  }

  function AfterHead(path: string): string
    ensures path != [] ==> |AfterHead(path)| < |path|
  {
    if path == [] then [] else if path[0] == '/' then path[1..] else AfterHead(path[1..])
  }

  /** A part that names something: not empty, and not the folder itself. */
  predicate Counts(part: string) {
    part != "" && part != "."
  }

  /** A path as the parts between its separators, without the parts that name nothing. */
  function Split(path: string): (parts: seq<string>)
    ensures forall p <- parts :: Counts(p)
    decreases |path|
  {
    if path == [] then []
    else if Counts(Head(path)) then [Head(path)] + Split(AfterHead(path))
    else Split(AfterHead(path))
  }

  function JoinPath(parts: seq<string>): string {
    if parts == [] then [] else "/" + parts[0] + JoinPath(parts[1..])
  }

  /** A name that survives a trip through a path. */
  predicate GoodName(name: string) {
    Counts(name) && '/' !in name
  }

  // ----- the tree as a value -----

  datatype TreeState = TreeState(entries: map<Handle, Entry>, children: map<Handle, seq<Handle>>, listed: set<Handle>)

  function InsertAll(entries: map<Handle, Entry>, es: seq<Entry>): map<Handle, Entry>
    decreases |es|
  {
    if es == [] then entries else InsertAll(entries[es[0].handle := es[0]], es[1..])
  }

  function Handles(es: seq<Entry>): (hs: seq<Handle>)
    ensures |hs| == |es| && forall i :: 0 <= i < |es| ==> hs[i] == es[i].handle
  {
    seq(|es|, i requires 0 <= i < |es| => es[i].handle)
  }

  function WithChildren(t: TreeState, parent: Handle, es: seq<Entry>): TreeState {
    TreeState(InsertAll(t.entries, es), t.children[parent := Handles(es)], t.listed + {parent})
  }

  function Forget(t: TreeState, parent: Handle): TreeState {
    t.(children := t.children - {parent}, listed := t.listed - {parent})
  }

  /** The first of the handles whose entry carries the name. */
  function FirstNamed(entries: map<Handle, Entry>, hs: seq<Handle>, name: string): Option<Handle> {
    if hs == [] then None
    else if hs[0] in entries && entries[hs[0]].name == name then Some(entries[hs[0]].handle)
    else FirstNamed(entries, hs[1..], name)
  }

  function ChildNamed(t: TreeState, parent: Handle, name: string): Option<Handle> {
    if parent in t.children then FirstNamed(t.entries, t.children[parent], name) else None
  }

  function LookupFrom(t: TreeState, current: Handle, parts: seq<string>): LookupResult
    decreases |parts|
  {
    if parts == [] then Found(current)
    else if current !in t.listed then NeedListing(current)
    else
      match ChildNamed(t, current, parts[0])
      case Some(h) => LookupFrom(t, h, parts[1..])
      case None => NotFound
  }

  /** The names from the root down to a handle, when the root is `fuel` parents away or nearer. */
  function Climb(t: TreeState, h: Handle, fuel: nat): Option<seq<string>>
    decreases fuel
  {
    if fuel == 0 then None
    else if h == ROOT then Some([])
    else if h !in t.entries then None
    else
      match Climb(t, t.entries[h].parent, fuel - 1)
      case None => None
      case Some(above) => Some(above + [t.entries[h].name])
  }

  function PathText(t: TreeState, h: Handle): Option<string> {
    if h == ROOT then Some("/")
    else
      match Climb(t, h, MAX_DEPTH)
      case None => None
      case Some(parts) => Some(JoinPath(parts))
  }

  // ----- the tree as the host updates it -----

  class Tree {
    var entries: map<Handle, Entry>
    var children: map<Handle, seq<Handle>>
    var listed: set<Handle>

    function State(): TreeState
      reads this
    {
      TreeState(entries, children, listed)
    }

    constructor ()
      ensures State() == TreeState(map[], map[], {})
    {
      entries := map[];
      children := map[];
      listed := {};
    }

    method SetChildren(parent: Handle, es: seq<Entry>)
      modifies this
      ensures State() == WithChildren(old(State()), parent, es)
    {
      var handles: seq<Handle> := [];
      for i := 0 to |es|
        invariant children == old(children) && listed == old(listed)
        invariant handles == Handles(es[..i])
        invariant InsertAll(entries, es[i..]) == InsertAll(old(entries), es)
      {
        handles := handles + [es[i].handle];
        entries := entries[es[i].handle := es[i]];
      }
      assert es[..|es|] == es;
      children := children[parent := handles];
      listed := listed + {parent};
    }

    method ForgetListing(parent: Handle)
      modifies this
      ensures State() == Forget(old(State()), parent)
    {
      listed := listed - {parent};
      children := children - {parent};
    }

    function Get(h: Handle): Option<Entry>
      reads this
    {
      if h in entries then Some(entries[h]) else None
    }

    method Lookup(path: string) returns (r: LookupResult)
      ensures r == LookupFrom(State(), ROOT, Split(path))
    {
      var current := ROOT;
      var parts := Split(path);
      for i := 0 to |parts|
        invariant LookupFrom(State(), current, parts[i..]) == LookupFrom(State(), ROOT, parts)
      {
        if current !in listed {
          return NeedListing(current);
        }
        var found := ChildNamed(State(), current, parts[i]);
        if found.None? {
          return NotFound;
        }
        current := found.value;
      }
      r := Found(current);
    }

    method PathOf(handle: Handle) returns (r: Option<string>)
      ensures r == PathText(State(), handle)
    {
      if handle == ROOT {
        return Some("/");
      }
      var parts: seq<string> := [];
      var current := handle;
      ghost var whole := Climb(State(), handle, MAX_DEPTH);
      assert whole.Some? ==> whole.value + Reversed([]) == whole.value;
      for i := 0 to MAX_DEPTH
        invariant match Climb(State(), current, MAX_DEPTH - i)
                  case Some(above) => whole == Some(above + Reversed(parts))
                  case None => whole == None
      {
        if current == ROOT {
          var out := JoinReversed(parts);
          assert [] + Reversed(parts) == Reversed(parts);
          return Some(out);
        }
        if current !in entries {
          return None;
        }
        ghost var above := Climb(State(), entries[current].parent, MAX_DEPTH - i - 1);
        if above.Some? {
          OneStepUp(above.value, entries[current].name, parts);
        }
        parts := parts + [entries[current].name];
        current := entries[current].parent;
      }
      r := None;
    }
  }

  /** One step of the climb: the last name of the path above is the next of the reversed parts. */
  lemma OneStepUp(above: seq<string>, name: string, parts: seq<string>)
    ensures above + [name] + Reversed(parts) == above + Reversed(parts + [name])
  {
    assert (parts + [name])[..|parts|] == parts;
  }

  function Reversed(parts: seq<string>): (r: seq<string>)
    ensures |r| == |parts|
  {
    if parts == [] then [] else [parts[|parts| - 1]] + Reversed(parts[..|parts| - 1])
  }

  method JoinReversed(parts: seq<string>) returns (out: string)
    ensures out == JoinPath(Reversed(parts))
  {
    out := "";
    var i: nat := |parts|;
    assert parts[..i] == parts;
    while i > 0
      invariant i <= |parts|
      invariant out + JoinPath(Reversed(parts[..i])) == JoinPath(Reversed(parts))
    {
      i := i - 1;
      assert parts[..i + 1][..i] == parts[..i];
      out := out + "/";
      out := out + parts[i];
    }
  }

  // ----- a path splits back into the names it was made of -----

  lemma {:induction false} HeadOfName(name: string, rest: string)
    requires '/' !in name && (rest == [] || rest[0] == '/')
    ensures Head(name + rest) == name
    ensures AfterHead(name + rest) == (if rest == [] then [] else rest[1..])
  {
    if name == [] {
      assert name + rest == rest;
    } else {
      HeadOfName(name[1..], rest);
      assert (name + rest)[1..] == name[1..] + rest;
    }
  }

  lemma {:induction false} SplitUndoesJoin(parts: seq<string>)
    requires forall p <- parts :: GoodName(p)
    ensures Split(JoinPath(parts)) == parts
  {
    if parts != [] {
      var rest := JoinPath(parts[1..]);
      var path := JoinPath(parts);
      assert GoodName(parts[0]);
      assert path == ['/'] + (parts[0] + rest);
      assert Head(path) == [] && AfterHead(path) == parts[0] + rest;
      HeadOfName(parts[0], rest);
      SplitUndoesJoin(parts[1..]);
      if rest != [] {
        SeparatorSplitsNothing(rest);
      }
    }
  }

  lemma SeparatorSplitsNothing(path: string)
    requires path != [] && path[0] == '/'
    ensures Split(path) == Split(path[1..])
  {
  }

  // ----- a handle, its path, and back -----

  /** Every folder above `h` is listed, and each holds the next part of the way down first
      under its name; the names survive a path. */
  ghost predicate WayDown(t: TreeState, h: Handle, fuel: nat)
    decreases fuel
  {
    h != ROOT ==>
      && fuel > 0
      && h in t.entries
      && GoodName(t.entries[h].name)
      && t.entries[h].parent in t.listed
      && ChildNamed(t, t.entries[h].parent, t.entries[h].name) == Some(h)
      && WayDown(t, t.entries[h].parent, fuel - 1)
  }

  lemma {:induction false} LookupAppend(t: TreeState, current: Handle, parts: seq<string>,
                                        name: string, mid: Handle)
    requires LookupFrom(t, current, parts) == Found(mid)
    ensures LookupFrom(t, current, parts + [name]) == LookupFrom(t, mid, [name])
    decreases |parts|
  {
    if parts != [] {
      assert (parts + [name])[1..] == parts[1..] + [name];
      LookupAppend(t, ChildNamed(t, current, parts[0]).value, parts[1..], name, mid);
    } else {
      assert parts + [name] == [name];
    }
  }

  lemma {:induction false} ClimbAndLookup(t: TreeState, h: Handle, depth: nat)
    requires WayDown(t, h, depth)
    ensures var parts := Climb(t, h, depth + 1);
      && parts.Some?
      && (forall p <- parts.value :: GoodName(p))
      && LookupFrom(t, ROOT, parts.value) == Found(h)
    decreases depth
  {
    if h != ROOT {
      var up := t.entries[h].parent;
      ClimbAndLookup(t, up, depth - 1);
      LookupAppend(t, ROOT, Climb(t, up, depth).value, t.entries[h].name, up);
    }
  }

  lemma {:induction false} ClimbMore(t: TreeState, h: Handle, fuel: nat, more: nat)
    requires fuel <= more && Climb(t, h, fuel).Some?
    ensures Climb(t, h, more) == Climb(t, h, fuel)
    decreases fuel
  {
    if h != ROOT {
      ClimbMore(t, t.entries[h].parent, fuel - 1, more - 1);
    }
  }

  /** A handle gives a path, and the path gives the handle back, at every depth up to 255. */
  lemma PathThenLookup(t: TreeState, h: Handle, depth: nat)
    requires depth < MAX_DEPTH && WayDown(t, h, depth)
    ensures PathText(t, h).Some?
    ensures LookupFrom(t, ROOT, Split(PathText(t, h).value)) == Found(h)
  {
    ClimbAndLookup(t, h, depth);
    ClimbMore(t, h, depth + 1, MAX_DEPTH);
    if h == ROOT {
      assert Split("/") == Split("");
    } else {
      SplitUndoesJoin(Climb(t, h, MAX_DEPTH).value);
    }
  }

  /** `n` parents above `h`, while the tree holds each one. */
  function Ancestor(t: TreeState, h: Handle, n: nat): Option<Handle>
    decreases n
  {
    if n == 0 then Some(h)
    else if h != ROOT && h in t.entries then Ancestor(t, t.entries[h].parent, n - 1)
    else None
  }

  lemma {:induction false} ClimbsIffRootIsNear(t: TreeState, h: Handle, fuel: nat)
    ensures Climb(t, h, fuel).Some? <==> exists n: nat :: n < fuel && Ancestor(t, h, n) == Some(ROOT)
    decreases fuel
  {
    if fuel > 0 {
      if h == ROOT {
        assert Ancestor(t, h, 0) == Some(ROOT);
        assert Climb(t, h, fuel) == Some([]);
        assert exists n: nat :: n < fuel && Ancestor(t, h, n) == Some(ROOT);
      } else if h in t.entries {
        var up := t.entries[h].parent;
        ClimbsIffRootIsNear(t, up, fuel - 1);
        if n: nat :| n < fuel - 1 && Ancestor(t, up, n) == Some(ROOT) {
          assert Ancestor(t, h, n + 1) == Some(ROOT);
          assert exists k: nat :: k < fuel && Ancestor(t, h, k) == Some(ROOT);
        }
        if n: nat :| n < fuel && Ancestor(t, h, n) == Some(ROOT) {
          var m: nat := n - 1;
          assert Ancestor(t, up, m) == Some(ROOT);
          assert exists k: nat :: k < fuel - 1 && Ancestor(t, up, k) == Some(ROOT);
        }
      } else {
        forall n: nat
          ensures Ancestor(t, h, n) != Some(ROOT)
        {
          assert Ancestor(t, h, n) == if n == 0 then Some(h) else None;
        }
      }
    }
  }

  /** A path comes out exactly when the root is at most 255 parents away. A cycle of parents
      that misses the root is one way to have no such ancestor, and then the walk stops. */
  lemma PathOfEndsOnEveryTree(t: TreeState, h: Handle)
    ensures PathText(t, h).Some? <==> exists n: nat :: n < MAX_DEPTH && Ancestor(t, h, n) == Some(ROOT)
  {
    ClimbsIffRootIsNear(t, h, MAX_DEPTH);
    if h == ROOT {
      assert Ancestor(t, h, 0) == Some(ROOT);
    }
  }

  lemma {:induction false} CycleMissesRoot(t: TreeState, h: Handle, loop: set<Handle>, n: nat)
    requires ROOT !in loop && h in loop
    requires forall k <- loop :: k in t.entries && t.entries[k].parent in loop
    ensures Ancestor(t, h, n) != Some(ROOT)
    decreases n
  {
    if n > 0 {
      CycleMissesRoot(t, t.entries[h].parent, loop, n - 1);
    }
  }

  /** Every cycle of parents not through the root gives no path. */
  lemma CycleGivesNoPath(t: TreeState, h: Handle, loop: set<Handle>)
    requires ROOT !in loop && h in loop
    requires forall k <- loop :: k in t.entries && t.entries[k].parent in loop
    ensures PathText(t, h) == None
  {
    PathOfEndsOnEveryTree(t, h);
    forall n: nat | n < MAX_DEPTH
      ensures Ancestor(t, h, n) != Some(ROOT)
    {
      CycleMissesRoot(t, h, loop, n);
    }
  }
}
