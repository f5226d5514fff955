/** Mail folders as a forest, and what the worklist of _all_folders owes while it is traversed. */
module FolderTree {
  import opened Wrappers

  /** childFolderCount is the number of children. */
  datatype Folder = Folder(id: string, children: seq<Folder>)

  /** How many folders of the whole forest `keep` selects. */
  function InForest(forest: seq<Folder>, keep: string -> bool): nat {
    if forest == [] then 0
    else (if keep(forest[0].id) then 1 else 0) + InForest(forest[0].children, keep) + InForest(forest[1..], keep)
  }

  /** The same among the given folders only, and strictly below them. */
  function Listed(folders: seq<Folder>, keep: string -> bool): nat {
    if folders == [] then 0 else (if keep(folders[0].id) then 1 else 0) + Listed(folders[1..], keep)
  }

  function Below(folders: seq<Folder>, keep: string -> bool): nat {
    if folders == [] then 0 else InForest(folders[0].children, keep) + Below(folders[1..], keep)
  }

  function Parents(folders: seq<Folder>): seq<Folder> {
    if folders == [] then []
    else (if folders[0].children != [] then [folders[0]] else []) + Parents(folders[1..])
  }

  predicate AllParents(folders: seq<Folder>) {
    forall f :: f in folders ==> f.children != []
  }

  /** Every id of the forest is listed as often as it occurs there. */
  ghost predicate ListsForest(folders: seq<Folder>, forest: seq<Folder>) {
    forall keep: string -> bool :: Listed(folders, keep) == InForest(forest, keep)
  }

  lemma {:induction false} LevelAndBelow(folders: seq<Folder>, keep: string -> bool)
    ensures InForest(folders, keep) == Listed(folders, keep) + Below(folders, keep)
  {
    if folders != [] {
      LevelAndBelow(folders[1..], keep);
    }
  }

  lemma {:induction false} BothParts(a: seq<Folder>, b: seq<Folder>, keep: string -> bool)
    ensures Listed(a + b, keep) == Listed(a, keep) + Listed(b, keep)
    ensures Below(a + b, keep) == Below(a, keep) + Below(b, keep)
  {
    if a == [] {
      assert a + b == b;
    } else {
      BothParts(a[1..], b, keep);
      assert (a + b)[1..] == a[1..] + b;
    }
  }

  /** Folders without children need no visit. */
  lemma {:induction false} ParentsHoldEverything(folders: seq<Folder>, keep: string -> bool)
    ensures Below(Parents(folders), keep) == Below(folders, keep) && AllParents(Parents(folders))
  {
    if folders != [] {
      ParentsHoldEverything(folders[1..], keep);
      if folders[0].children != [] {
        assert ([folders[0]] + Parents(folders[1..]))[1..] == Parents(folders[1..]);
      } else {
        assert Parents(folders) == Parents(folders[1..]);
      }
    }
  }

  function Is(id: string): string -> bool {
    x => x == id
  }

  predicate InTree(forest: seq<Folder>, id: string) {
    InForest(forest, Is(id)) > 0
  }

  lemma {:induction false} ListedMeansMember(folders: seq<Folder>, id: string)
    ensures Listed(folders, Is(id)) > 0 <==> exists f :: f in folders && f.id == id
  {
    if folders != [] {
      ListedMeansMember(folders[1..], id);
      assert forall f :: f in folders <==> f == folders[0] || f in folders[1..];
    }
  }

  /** Taking a parent off the queue: its whole level comes first, then what is below that. */
  lemma PoppedParent(queue: seq<Folder>, keep: string -> bool)
    requires queue != []
    ensures var parent, rest := queue[|queue| - 1], queue[..|queue| - 1];
            Below(queue, keep) == Below(rest, keep) + Listed(parent.children, keep) + Below(parent.children, keep)
  {
    var parent, rest := queue[|queue| - 1], queue[..|queue| - 1];
    assert queue == rest + [parent];
    BothParts(rest, [parent], keep);
    LevelAndBelow(parent.children, keep);
  }

  function Any(): string -> bool {
    x => true
  }

  lemma {:induction false} EveryFolderCounts(folders: seq<Folder>)
    ensures Listed(folders, Any()) == |folders|
  {
    if folders != [] {
      EveryFolderCounts(folders[1..]);
    }
  }

  /** Of the forest, `folders` has been listed and what lies below `queue` has not. */
  ghost predicate Remaining(folders: seq<Folder>, queue: seq<Folder>, forest: seq<Folder>) {
    forall keep :: Listed(folders, keep) + Below(queue, keep) == InForest(forest, keep)
  }

  lemma FirstLevel(forest: seq<Folder>)
    ensures Remaining(forest, Parents(forest), forest) && AllParents(Parents(forest))
  {
    forall keep
      ensures Listed(forest, keep) + Below(Parents(forest), keep) == InForest(forest, keep)
    {
      LevelAndBelow(forest, keep);
      ParentsHoldEverything(forest, keep);
    }
    ParentsHoldEverything(forest, Any());
  }

  lemma NextLevel(folders: seq<Folder>, queue: seq<Folder>, forest: seq<Folder>)
    requires Remaining(folders, queue, forest) && AllParents(queue) && queue != []
    ensures var children, rest := queue[|queue| - 1].children, queue[..|queue| - 1];
            && Remaining(folders + children, rest + Parents(children), forest)
            && AllParents(rest + Parents(children))
            && Below(rest + Parents(children), Any()) < Below(queue, Any())
  {
    var children, rest := queue[|queue| - 1].children, queue[..|queue| - 1];
    forall keep
      ensures Listed(folders + children, keep) + Below(rest + Parents(children), keep) == InForest(forest, keep)
      ensures Below(rest + Parents(children), keep) + Listed(children, keep) == Below(queue, keep)
    {
      BothParts(folders, children, keep);
      BothParts(rest, Parents(children), keep);
      ParentsHoldEverything(children, keep);
      PoppedParent(queue, keep);
      assert Listed(folders, keep) + Below(queue, keep) == InForest(forest, keep);
    }
    ParentsHoldEverything(children, Any());
    EveryFolderCounts(children);
    assert queue[|queue| - 1] in queue;
  }

  /** Once nothing is queued the result is the forest, folder for folder. */
  lemma NothingRemains(folders: seq<Folder>, forest: seq<Folder>)
    requires Remaining(folders, [], forest)
    ensures ListsForest(folders, forest)
    ensures forall id :: InTree(forest, id) <==> exists f :: f in folders && f.id == id
  {
    forall keep: string -> bool
      ensures Listed(folders, keep) == InForest(forest, keep)
    {
      assert Below([], keep) == 0;
    }
    forall id
      ensures InTree(forest, id) <==> exists f :: f in folders && f.id == id
    {
      ListedMeansMember(folders, id);
    }
  }
}
