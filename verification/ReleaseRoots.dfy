/** Where the walk over a release starts, and which node counts for a package (packaging/generate_supply_chain.py). */
module ReleaseRoots {
  import opened Basics
  import opened ReleaseGraph

  /** The release is that of the package that the resolution names, or else of the only member of the workspace. */
  lemma RootIff(m: Metadata, root: string)
    ensures RootOf(m) == Some(root) <==>
            (m.root == Some(root) && root != "") || ((m.root == None || m.root == Some("")) && m.members == [root])
  {
  }

  /** node n is the last one of its package. */
  predicate LastOf(nodes: seq<Node>, id: string, n: nat) {
    n < |nodes| && nodes[n].id == id && forall k :: n < k < |nodes| ==> nodes[k].id != id
  }

  /** A package has a node iff some node is of it, and of several the last one counts. */
  lemma {:induction false} LastNodeCounts(nodes: seq<Node>, id: string)
    ensures id in NodeMap(nodes) <==> exists n :: 0 <= n < |nodes| && nodes[n].id == id
    ensures forall n: nat :: LastOf(nodes, id, n) ==> id in NodeMap(nodes) && NodeMap(nodes)[id] == nodes[n].deps
  {
    if nodes != [] {
      var front := nodes[..|nodes| - 1];
      LastNodeCounts(front, id);
      forall n: nat | LastOf(nodes, id, n) ensures id in NodeMap(nodes) && NodeMap(nodes)[id] == nodes[n].deps {
        if n < |front| {
          assert nodes[|front|].id != id;
          assert forall k :: n < k < |front| ==> front[k].id == nodes[k].id;
          assert LastOf(front, id, n);
        }
      }
      assert forall n :: 0 <= n < |front| ==> front[n] == nodes[n];
    }
  }
}
