/**
 * The page router (router.rs; bountui/router.rs is the same router behind
 * RefCell/Cell, and is modelled by the same class): a history whose root
 * can never be popped, and a one-slot mailbox holding the page the owner
 * should switch to next.
 */
module Routing {
  import opened Wrappers

  /** The root page and the pages pushed on top of it, oldest first. */
  datatype History<P> = History(root: P, stack: seq<P>) {
    function Push(page: P): (h: History<P>)
      ensures h.root == root && h.Len() == Len() + 1 && h.Last() == page
    {
      History(root, stack + [page])
    }

    /** The number of pages, the root included. */
    function Len(): (n: nat)
      ensures n >= 1
      ensures n == 1 <==> stack == []
    {
      |stack| + 1
    }

    /** The page on top: the last pushed, or the root when nothing was pushed. */
    function Last(): (p: P)
      ensures stack == [] ==> p == root
      ensures stack != [] ==> p == stack[|stack| - 1]
    {
      if stack == [] then root else stack[|stack| - 1]
    }

    /** Drops the top page; with nothing pushed, nothing changes. */
    function Pop(): (h: History<P>)
      ensures h.root == root
      ensures stack == [] ==> h == this
      ensures stack != [] ==> h.Len() == Len() - 1
      ensures stack != [] ==> h.stack == stack[..|stack| - 1] && h.Push(Last()) == this
    {
      if stack == [] then this else History(root, stack[..|stack| - 1])
    }
  }

  /** Popping a page right after pushing it gives back the history as it was. */
  lemma PushThenPop<P>(h: History<P>, page: P)
    ensures h.Push(page).Pop() == h
  {
    assert (h.stack + [page])[..|h.stack|] == h.stack;
  }

  /**
   * The history and the pending change once `page`, when there is one, has
   * been pushed; with none, both stay as they were.
   */
  function AfterPush<P>(history: History<P>, pending: Option<P>, page: Option<P>): (r: (History<P>, Option<P>))
    ensures page.None? ==> r == (history, pending)
    ensures page.Some? ==> r.0 == history.Push(page.value) && r.0.Last() == page.value && r.1 == page
  {
    match page
    case None => (history, pending)
    case Some(p) => (history.Push(p), Some(p))
  }

  class Router<P> {
    var history: History<P>
    var newPage: Option<P>

    constructor (initial: P)
      ensures history == History(initial, []) && newPage == None
    {
      history := History(initial, []);
      newPage := None;
    }

    /** The page goes on top of the history and becomes the pending change. */
    method Push(page: P)
      modifies this
      ensures history == old(history).Push(page)
      ensures newPage == Some(page)
    {
      history := history.Push(page);
      newPage := Some(page);
    }

    /**
     * Above the root: the top page is dropped and the page now on top
     * becomes the pending change. At the root: nothing changes.
     */
    method Pop()
      modifies this
      ensures old(history).Len() > 1 ==> history == old(history).Pop() && newPage == Some(history.Last())
      ensures old(history).Len() == 1 ==> history == old(history) && newPage == old(newPage)
    {
      if history.Len() > 1 {
        history := history.Pop();
        newPage := Some(history.Last());
      }
    }

    /** Takes the pending change, leaving none. */
    method PollChange() returns (change: Option<P>)
      modifies this
      ensures change == old(newPage) && newPage == None && history == old(history)
    {
      change := newPage;
      newPage := None;
    }

    /** There is a page to go back to. */
    function CanGoBack(): (r: bool)
      reads this
      ensures r <==> history.stack != []
    {
      history.Len() > 1
    }
  }

  /**
   * From a fresh router: a pushed page is reported once by PollChange, and
   * popping it reports the root and leaves nowhere further back to go.
   */
  method PushPollPopScenario<P>(initial: P, page: P)
    returns (polled: Option<P>, pollAgain: Option<P>, couldGoBack: bool, afterPop: Option<P>, canStillGoBack: bool)
    ensures polled == Some(page) && pollAgain == None && couldGoBack
    ensures afterPop == Some(initial) && !canStillGoBack
  {
    var router := new Router(initial);
    router.Push(page);
    polled := router.PollChange();
    pollAgain := router.PollChange();
    couldGoBack := router.CanGoBack();
    router.Pop();
    afterPop := router.PollChange();
    canStillGoBack := router.CanGoBack();
  }

  /** Popping at the root reports no change: the root page is never popped. */
  method PopAtRootScenario<P>(initial: P) returns (change: Option<P>, top: P)
    ensures change == None && top == initial
  {
    var router := new Router(initial);
    router.Pop();
    change := router.PollChange();
    top := router.history.Last();
  }
}
