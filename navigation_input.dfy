/**
 * The command line of the current generation
 * (bountui/components/navigation_input.rs): typed text completed against a
 * fixed list of destinations, Tab to accept the completion, Enter to go.
 */
module NavigationInput {
  import opened Wrappers
  import opened Events
  import opened Messages

  const ScopeTree: string := "scope-tree"
  const MySessions: string := "my-sessions"
  const Options: seq<string> := [ScopeTree, MySessions]

  /** The first option that starts with `value`. */
  function FirstWithPrefix(options: seq<string>, value: string): (r: Option<string>)
    ensures r.None? <==> forall i :: 0 <= i < |options| ==> !(value <= options[i])
    ensures r.Some? ==> exists i :: 0 <= i < |options| && options[i] == r.value && value <= r.value &&
                                    forall j :: 0 <= j < i ==> !(value <= options[j])
  {
    if options == [] then None
    else if value <= options[0] then Some(options[0])
    else
      var rest := FirstWithPrefix(options[1..], value);
      assert forall i :: 1 <= i < |options| ==> options[i] == options[1..][i - 1];
      if rest.Some? then
        var k :| 0 <= k < |options[1..]| && options[1..][k] == rest.value && value <= rest.value &&
                 forall j :: 0 <= j < k ==> !(value <= options[1..][j]);
        assert options[k + 1] == rest.value;
        assert forall j :: 1 <= j < k + 1 ==> !(value <= options[j]) by {
          forall j | 1 <= j < k + 1 ensures !(value <= options[j]) { assert options[j] == options[1..][j - 1]; }
        }
        rest
      else
        rest
  }

  /** `compute_matching_option`: nothing for empty text, else the first option it begins. */
  function ComputeMatchingOption(value: string): (r: Option<string>)
    ensures value == [] ==> r.None?
    ensures r.Some? ==> r.value in Options && value <= r.value
    ensures value != [] ==> r == FirstWithPrefix(Options, value)
  {
    if value == [] then None else FirstWithPrefix(Options, value)
  }

  /** An option completes to itself, so accepting a completion twice changes nothing. */
  lemma OptionsMatchThemselves(o: string)
    requires o in Options
    ensures ComputeMatchingOption(o) == Some(o)
  {
    assert !(MySessions <= ScopeTree) by { assert MySessions[0] != ScopeTree[0]; }
  }

  /** `handle_confirm`: the message Enter sends, only for an exact option. */
  function Confirmation(value: string): (r: seq<Message>)
    ensures value == ScopeTree <==> r == [NavigateToScopeTree]
    ensures value == MySessions <==> r == [NavigateToMySessions]
    ensures r == [] <==> value !in Options
  {
    if value == ScopeTree then [NavigateToScopeTree]
    else if value == MySessions then [NavigateToMySessions]
    else []
  }

  /** The grey completion drawn after the typed text. */
  function GhostSuffix(typed: string, matching: Option<string>): (r: Option<string>)
    ensures r.Some? ==> matching.Some? && |typed| < |matching.value| && r.value == matching.value[|typed|..]
    ensures r.None? ==> matching.None? || |typed| >= |matching.value|
  {
    if matching.Some? && |typed| < |matching.value| then Some(matching.value[|typed|..]) else None
  }

  /** While the cached match is current, the typed text and its ghost suffix spell the option. */
  lemma GhostSuffixCompletes(typed: string)
    requires ComputeMatchingOption(typed).Some? && typed != ComputeMatchingOption(typed).value
    ensures var o := ComputeMatchingOption(typed).value;
      GhostSuffix(typed, Some(o)).Some? && typed + GhostSuffix(typed, Some(o)).value == o
  {
    var o := ComputeMatchingOption(typed).value;
    assert typed <= o;
    assert o == o[..|typed|] + o[|typed|..];
  }

  class NavigationInput {
    var input: string
    var matchingOption: Option<string>
    var outbox: seq<Message>

    /** The cached match is the one of the current text. */
    predicate Valid()
      reads this
    {
      matchingOption == ComputeMatchingOption(input)
    }

    constructor ()
      ensures input == [] && matchingOption.None? && outbox == [] && Valid()
    {
      input := [];
      matchingOption := None;
      outbox := [];
    }

    method RecomputeMatchingOption()
      modifies this
      ensures input == old(input) && outbox == old(outbox) && Valid()
    {
      matchingOption := ComputeMatchingOption(input);
    }

    method HandleConfirm()
      modifies this
      ensures input == old(input) && matchingOption == old(matchingOption)
      ensures outbox == old(outbox) + Confirmation(input)
    {
      if input == ScopeTree {
        outbox := outbox + [NavigateToScopeTree];
      } else if input == MySessions {
        outbox := outbox + [NavigateToMySessions];
      }
    }

    /**
     * Enter confirms without editing; Tab accepts the completion, if any;
     * any other event edits the text. The cached match is kept current.
     */
    method HandleEvent(e: Event)
      requires Valid()
      modifies this
      ensures Valid()
      ensures IsKey(e, Enter) ==> input == old(input) && outbox == old(outbox) + Confirmation(old(input))
      ensures IsKey(e, Tab) ==>
                outbox == old(outbox) &&
                input == (if old(matchingOption).Some? then old(matchingOption).value else old(input))
      ensures !IsKey(e, Enter) && !IsKey(e, Tab) ==> outbox == old(outbox) && input == EditText(old(input), e)
    {
      if e.Key? {
        match e.code
        case Enter =>
          HandleConfirm();
          return;
        case Tab =>
          if matchingOption.Some? {
            input := matchingOption.value;
            RecomputeMatchingOption();
          }
          return;
        case _ =>
      }
      input := EditText(input, e);
      RecomputeMatchingOption();
    }
  }

  lemma SCOMatchesScopeTree()
    ensures ComputeMatchingOption("sco") == Some(ScopeTree)
  {
    assert "sco" <= ScopeTree;
  }

  /** Typing "sco" and pressing Tab gives "scope-tree". */
  method ScopeTreeScenario() returns (completed: string)
    ensures completed == ScopeTree
  {
    var nav := new NavigationInput();
    nav.HandleEvent(Press(Char('s')));
    assert nav.input == "s";
    nav.HandleEvent(Press(Char('c')));
    assert nav.input == "sc";
    nav.HandleEvent(Press(Char('o')));
    assert nav.input == "sco";
    SCOMatchesScopeTree();
    nav.HandleEvent(Press(Tab));
    completed := nav.input;
  }

  lemma MyMatchesMySessions()
    ensures ComputeMatchingOption("my-") == Some(MySessions)
  {
    assert !("my-" <= ScopeTree) by { assert "my-"[0] != ScopeTree[0]; }
    assert "my-" <= MySessions;
    assert Options[1..] == [MySessions];
    assert FirstWithPrefix([MySessions], "my-") == Some(MySessions);
  }

  /** Typing "my-" and pressing Tab gives "my-sessions". */
  method MySessionsScenario() returns (completed: string)
    ensures completed == MySessions
  {
    var nav := new NavigationInput();
    nav.HandleEvent(Press(Char('m')));
    assert nav.input == "m";
    nav.HandleEvent(Press(Char('y')));
    assert nav.input == "my";
    nav.HandleEvent(Press(Char('-')));
    assert nav.input == "my-";
    MyMatchesMySessions();
    nav.HandleEvent(Press(Tab));
    completed := nav.input;
  }
}
