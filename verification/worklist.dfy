/**
 * The crawl without native recursion: an explicit stack of frames, each frame
 * the links of one page still to be handled. It discovers and loads pages in
 * exactly the order of the recursive `Crawling.Process`.
 */
module Worklist {
  import opened Seqs
  import opened Crawling

  ghost predicate FramesIn(stack: seq<seq<string>>, universe: set<string>)
  {
    forall k :: 0 <= k < |stack| ==> AllIn(stack[k], universe)
  }

  /** Links still to be handled, plus one per frame for popping it. */
  function Pending(stack: seq<seq<string>>): nat
  {
    if stack == [] then 0 else Pending(stack[..|stack| - 1]) + |stack[|stack| - 1]| + 1
  }

  /** What the recursive crawl does with the rest of the stack, top frame first. */
  function Finish(links: string -> seq<string>, universe: set<string>, stack: seq<seq<string>>, run: Run): Run
    requires Bounded(links, universe)
    requires FramesIn(stack, universe)
    decreases |stack|
  {
    if stack == [] then run
    else Finish(links, universe, stack[..|stack| - 1], ProcessLinks(links, universe, stack[|stack| - 1], run))
  }

  lemma FinishPush(links: string -> seq<string>, universe: set<string>, below: seq<seq<string>>, frame: seq<string>, run: Run)
    requires Bounded(links, universe)
    requires FramesIn(below, universe) && AllIn(frame, universe)
    ensures FramesIn(below + [frame], universe)
    ensures Finish(links, universe, below + [frame], run)
      == Finish(links, universe, below, ProcessLinks(links, universe, frame, run))
  {
    assert (below + [frame])[..|below|] == below;
  }

  lemma PendingPush(below: seq<seq<string>>, frame: seq<string>)
    ensures Pending(below + [frame]) == Pending(below) + |frame| + 1
  {
    assert (below + [frame])[..|below|] == below;
  }

  /** An exhausted top frame is popped without changing the outcome. */
  lemma FinishPop(links: string -> seq<string>, universe: set<string>, below: seq<seq<string>>, run: Run)
    requires Bounded(links, universe)
    requires FramesIn(below, universe)
    ensures Finish(links, universe, below + [[]], run) == Finish(links, universe, below, run)
  {
    FinishPush(links, universe, below, [], run);
  }

  /** A link already visited is skipped without changing the outcome. */
  lemma FinishSkip(links: string -> seq<string>, universe: set<string>, below: seq<seq<string>>, top: seq<string>, run: Run)
    requires Bounded(links, universe)
    requires FramesIn(below, universe) && AllIn(top, universe)
    requires top != [] && top[0] in run.visited
    ensures Finish(links, universe, below + [top], run) == Finish(links, universe, below + [top[1..]], run)
  {
    FinishPush(links, universe, below, top, run);
    FinishPush(links, universe, below, top[1..], run);
  }

  /**
   * A fresh link is appended, its page loaded, and its links pushed as a new
   * frame above the rest of its siblings, without changing the outcome.
   */
  lemma FinishDescend(links: string -> seq<string>, universe: set<string>, below: seq<seq<string>>, top: seq<string>, run: Run)
    requires Bounded(links, universe)
    requires FramesIn(below, universe) && AllIn(top, universe)
    requires top != [] && top[0] !in run.visited
    ensures FramesIn(below + [top[1..]] + [links(top[0])], universe)
    ensures Finish(links, universe, below + [top], run)
      == Finish(links, universe, below + [top[1..]] + [links(top[0])], Run(run.visited + [top[0]], run.loaded + [top[0]]))
  {
    var link := top[0];
    var next := Run(run.visited + [link], run.loaded + [link]);
    FinishPush(links, universe, below, top, run);
    FinishPush(links, universe, below, top[1..], ProcessLinks(links, universe, links(link), next));
    FinishPush(links, universe, below + [top[1..]], links(link), next);
    assert Process(links, universe, link, Run(run.visited + [link], run.loaded))
      == ProcessLinks(links, universe, links(link), next);
  }

  /**
   * One step of the stack crawl: pop an exhausted frame, skip a visited link,
   * or append a fresh link, load its page and push its links. The outcome of
   * finishing the crawl is unchanged, and either fewer URLs remain unvisited
   * or as many do and less work is pending.
   */
  method Step(links: string -> seq<string>, ghost universe: set<string>, stack: seq<seq<string>>, run: Run)
    returns (stack': seq<seq<string>>, run': Run)
    requires Bounded(links, universe)
    requires stack != [] && FramesIn(stack, universe)
    ensures FramesIn(stack', universe)
    ensures Finish(links, universe, stack', run') == Finish(links, universe, stack, run)
    ensures || Unvisited(universe, run'.visited) < Unvisited(universe, run.visited)
            || (Unvisited(universe, run'.visited) == Unvisited(universe, run.visited) && Pending(stack') < Pending(stack))
  {
    var below := stack[..|stack| - 1];
    var top := stack[|stack| - 1];
    assert stack == below + [top];
    PendingPush(below, top);
    if top == [] {
      FinishPop(links, universe, below, run);
      stack', run' := below, run;
    } else if top[0] in run.visited {
      FinishSkip(links, universe, below, top, run);
      PendingPush(below, top[1..]);
      FinishPush(links, universe, below, top[1..], run);
      stack', run' := below + [top[1..]], run;
    } else {
      var link := top[0];
      FinishDescend(links, universe, below, top, run);
      AppendFreshShrinks(universe, run.visited, link);
      stack', run' := below + [top[1..]] + [links(link)], Run(run.visited + [link], run.loaded + [link]);
    }
  }

  /**
   * `crawler(domain)` with an explicit stack. The run it returns, both the
   * discovered URLs and the order pages were loaded in, is that of the
   * recursive crawl.
   */
  method CrawlWithStack(links: string -> seq<string>, ghost universe: set<string>, domain: string) returns (run: Run)
    requires Bounded(links, universe)
    ensures run == Process(links, universe, domain, Init(domain))
    ensures run.visited == CrawlDomain(links, universe, domain)
  {
    run := Run([domain], [domain]);
    var stack := [links(domain)];
    assert Init(domain).loaded + [domain] == [domain];
    FinishPush(links, universe, [], links(domain), run);
    assert [] + [links(domain)] == stack;
    while stack != []
      invariant FramesIn(stack, universe)
      invariant Finish(links, universe, stack, run) == Process(links, universe, domain, Init(domain))
      decreases Unvisited(universe, run.visited), Pending(stack)
    {
      stack, run := Step(links, universe, stack, run);
    }
  }
}
