/** Tool and block filters of a copilot execution, and how a nested execution inherits them. */
module Permissions {
  import opened Prelude

  /** A list of names is a blacklist if `exclude` is set, else a whitelist; an empty list allows everything. */
  datatype Permissions = Permissions(
    tools: set<string>, toolsExclude: bool, blocks: seq<string>, blocksExclude: bool, parent: Option<Permissions>)

  const ALLOW_ALL := Permissions({}, true, [], true, None)

  /** Whether an identifier denotes the block in question: by name, id or the id's first part. */
  type Matcher = string -> bool

  function EffectiveTools(p: Permissions, all: set<string>): (t: set<string>)
    ensures t <= all
  {
    if p.tools == {} then all else if p.toolsExclude then all - p.tools else all * p.tools
  }

  predicate BlockPassesLocally(p: Permissions, matches: Matcher) {
    p.blocks == [] || (p.blocksExclude != exists b <- p.blocks :: matches(b))
  }

  predicate BlockAllowed(p: Permissions, matches: Matcher) {
    BlockPassesLocally(p, matches) && (p.parent.Some? ==> BlockAllowed(p.parent.value, matches))
  }

  function MergedWithParent(p: Permissions, parent: Permissions, all: set<string>): Permissions {
    Permissions(EffectiveTools(p, all) * EffectiveTools(parent, all), false, p.blocks, p.blocksExclude, Some(parent))
  }

  // ---------------------------------------------------------------- what a list of names does

  /**
   * One more name in a list that is not empty: a blacklist lets pass what it did except the tools and
   * blocks of that name, and a whitelist also lets these pass.
   */
  lemma OneMoreName(p: Permissions, name: string, all: set<string>, matches: Matcher)
    requires p.tools != {} && p.blocks != []
    ensures var more := p.(tools := p.tools + {name}, blocks := p.blocks + [name]);
            && EffectiveTools(more, all)
               == (if p.toolsExclude then EffectiveTools(p, all) - {name}
                   else EffectiveTools(p, all) + (all * {name}))
            && (BlockPassesLocally(more, matches)
                <==> if p.blocksExclude then BlockPassesLocally(p, matches) && !matches(name)
                     else BlockPassesLocally(p, matches) || matches(name))
  {
    var blocks := p.blocks + [name];
    assert forall b :: b in blocks <==> b in p.blocks || b == name;
    assert name in blocks;
  }

  /** The first name in an empty list: a blacklist lets everything else pass, and a whitelist nothing else. */
  lemma FirstName(p: Permissions, name: string, all: set<string>, matches: Matcher)
    requires p.tools == {} && p.blocks == []
    ensures EffectiveTools(p, all) == all && BlockPassesLocally(p, matches)
    ensures var one := p.(tools := {name}, blocks := [name]);
            && EffectiveTools(one, all) == (if p.toolsExclude then all - {name} else all * {name})
            && (BlockPassesLocally(one, matches) <==> matches(name) != p.blocksExclude)
  {
    assert name in [name];
  }

  // ---------------------------------------------------------------- what a merge allows

  /**
   * The merged tools are the intersection exactly when there is one: an empty intersection is stored
   * as an empty list, which allows every tool.
   */
  lemma MergeIntersectsIff(p: Permissions, parent: Permissions, all: set<string>)
    ensures var both := EffectiveTools(p, all) * EffectiveTools(parent, all);
            && (EffectiveTools(MergedWithParent(p, parent, all), all) == both <==> both != {} || all == {})
            && (both == {} ==> EffectiveTools(MergedWithParent(p, parent, all), all) == all)
  {
    var both := EffectiveTools(p, all) * EffectiveTools(parent, all);
    if both != {} {
      assert all * both == both;
    }
  }

  /** A nested execution is no wider than its parent exactly when they share a tool, or the parent had all. */
  lemma MergeNarrowsIff(p: Permissions, parent: Permissions, all: set<string>)
    ensures EffectiveTools(MergedWithParent(p, parent, all), all) <= EffectiveTools(parent, all)
            <==> EffectiveTools(p, all) * EffectiveTools(parent, all) != {} || EffectiveTools(parent, all) == all
  {
    MergeIntersectsIff(p, parent, all);
    if EffectiveTools(p, all) * EffectiveTools(parent, all) == {} && all <= EffectiveTools(parent, all) {
      assert EffectiveTools(parent, all) == all;
    }
  }

  /** A parent and a child with a whitelist each and no tool in common: the child gets every tool. */
  lemma DisjointWhitelistsAllowAll(a: string, b: string, all: set<string>)
    requires a != b && a in all && b in all
    ensures var parent := Permissions({a}, false, [], true, None);
            var child := Permissions({b}, false, [], true, None);
            EffectiveTools(MergedWithParent(child, parent, all), all) == all
  {
    assert all * {a} == {a} && all * {b} == {b} && {b} * {a} == {};
  }

  /** The filters that are in force at the end of a chain of executions, outermost first. */
  function Ceiling(chain: seq<Permissions>, all: set<string>): Permissions
    requires chain != []
    decreases chain
  {
    var p := chain[|chain| - 1];
    if |chain| == 1 then p else MergedWithParent(p, Ceiling(chain[..|chain| - 1], all), all)
  }

  /** The tools that every execution of the chain allows. */
  function Shared(chain: seq<Permissions>, all: set<string>): set<string>
    requires chain != []
    decreases chain
  {
    var t := EffectiveTools(chain[|chain| - 1], all);
    if |chain| == 1 then t else t * Shared(chain[..|chain| - 1], all)
  }

  /** What is allowed at the end of a nested chain is what its executions share, if and only if that is something. */
  lemma {:induction false} CeilingIsSharedIff(chain: seq<Permissions>, all: set<string>)
    requires |chain| > 1
    ensures EffectiveTools(Ceiling(chain, all), all) == Shared(chain, all) <==> Shared(chain, all) != {} || all == {}
    decreases chain
  {
    var p, before := chain[|chain| - 1], chain[..|chain| - 1];
    MergeIntersectsIff(p, Ceiling(before, all), all);
    if |before| == 1 {
    } else {
      CeilingIsSharedIff(before, all);
    }
  }

  /** A block is allowed exactly if every execution of the chain lets it pass. */
  lemma {:induction false} BlockNeedsWholeChain(chain: seq<Permissions>, all: set<string>, matches: Matcher)
    requires chain != [] && forall p <- chain :: p.parent == None
    ensures BlockAllowed(Ceiling(chain, all), matches) <==> forall p <- chain :: BlockPassesLocally(p, matches)
    decreases chain
  {
    hide BlockPassesLocally;
    var p, before := chain[|chain| - 1], chain[..|chain| - 1];
    assert chain == before + [p];
    var c := Ceiling(chain, all);
    assert BlockPassesLocally(c, matches) <==> BlockPassesLocally(p, matches) by {
      SameBlocks(c, p, matches);
    }
    if |chain| == 1 {
    } else {
      BlockNeedsWholeChain(before, all, matches);
      forall q | q in chain
        ensures q in before || q == p
      {
      }
    }
  }

  lemma SameBlocks(a: Permissions, b: Permissions, matches: Matcher)
    requires a.blocks == b.blocks && a.blocksExclude == b.blocksExclude
    ensures BlockPassesLocally(a, matches) <==> BlockPassesLocally(b, matches)
  {
  }
}
