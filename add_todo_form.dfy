/**
 * The `App` component's form: the five pieces of view state, the transitions
 * its handlers make, and the facts every transition keeps.
 *
 * The React setters of one handler all take effect after the handler has
 * finished reading state, so each handler is one transition from the state it
 * saw to the state it leaves. The transitions are first given as functions on
 * a `FormState` value (where the lemmas live) and then as the methods of the
 * class `AppForm`, whose fields the handlers overwrite.
 */
module AddTodoForm {
  import opened Optional
  import opened Text
  import opened Directory
  import opened TodoIds

  /** `title`, `userId`, `visibleTodos`, `titleEntered`, `userChosen`. */
  datatype FormState = FormState(
    title: string,
    userId: int,
    visibleTodos: seq<EnrichedTodo>,
    titleEntered: bool,
    userChosen: bool)

  /** The `useState` initial values: an empty draft, the joined fixtures, no error shown. */
  function Initial(users: seq<User>, todos: seq<Todo>): FormState
  {
    FormState("", 0, Join(users, todos), true, true)
  }

  /** `handleReset`: clears the draft. */
  function ResetStep(s: FormState): FormState
  {
    s.(title := "", userId := 0)
  }

  /** The guard of `addTodo(id)`: `getUser(id)` found someone and the title does not trim to empty. */
  predicate Accepts(users: seq<User>, s: FormState, id: int)
  {
    GetUser(users, id).Some? && Trim(s.title) != ""
  }

  /** The todo `addTodo` builds from the draft it saw. */
  function NewTodo(users: seq<User>, s: FormState): EnrichedTodo
    requires |s.visibleTodos| > 0
  {
    EnrichedTodo(NextTodoId(s.visibleTodos), s.userId, s.title, false, GetUser(users, s.userId))
  }

  /**
   * `addTodo(id)` as one transition: every test reads the state before the
   * call, so `!userId` tests the old id even after a successful submit.
   */
  function AddTodoStep(users: seq<User>, s: FormState, id: int): FormState
    requires |s.visibleTodos| > 0
  {
    var blank := Trim(s.title) == "";
    var added := if Accepts(users, s, id) then ResetStep(s.(visibleTodos := s.visibleTodos + [NewTodo(users, s)])) else s;
    added.(userChosen := if s.userId == 0 then false else s.userChosen,
           titleEntered := if blank then false else s.titleEntered)
  }

  /** `handleSubmit`: `addTodo(userId)`. */
  function SubmitStep(users: seq<User>, s: FormState): FormState
    requires |s.visibleTodos| > 0
  {
    AddTodoStep(users, s, s.userId)
  }

  /** `handleTitle`: the new title, and the title error is withdrawn. */
  function TitleStep(s: FormState, value: string): FormState
  {
    s.(title := value, titleEntered := true)
  }

  /** `handleUserSelect`: the new user id, and the user error is withdrawn. */
  function UserSelectStep(s: FormState, n: int): FormState
  {
    s.(userId := n, userChosen := true)
  }

  // ---------------------------------------------------------------------------
  // One submission

  /** A submit is accepted exactly when the chosen id is in the directory and the title is not all white space. */
  lemma SubmitAcceptsIff(users: seq<User>, s: FormState)
    ensures Accepts(users, s, s.userId) <==>
      (exists u :: u in users && u.id == s.userId) && !IsBlank(s.title)
  {
    TrimEmptyIffBlank(s.title);
  }

  /**
   * An accepted submit appends exactly one todo at the end, built from the old
   * draft with a fresh id and the untrimmed title, and clears the draft.
   */
  lemma SubmitAccepted(users: seq<User>, s: FormState)
    requires |s.visibleTodos| > 0 && Accepts(users, s, s.userId)
    ensures var r := SubmitStep(users, s);
      |r.visibleTodos| == |s.visibleTodos| + 1 &&
      r.visibleTodos[..|s.visibleTodos|] == s.visibleTodos &&
      r.visibleTodos[|s.visibleTodos|] ==
        EnrichedTodo(NextTodoId(s.visibleTodos), s.userId, s.title, false, GetUser(users, s.userId)) &&
      r.title == "" && r.userId == 0
    ensures var e := SubmitStep(users, s).visibleTodos[|s.visibleTodos|];
      e.user.Some? && e.user.value.id == s.userId &&
      forall i :: 0 <= i < |s.visibleTodos| ==> s.visibleTodos[i].id < e.id
  {
    var r := SubmitStep(users, s);
    assert r.visibleTodos[..|s.visibleTodos|] == s.visibleTodos;
  }

  /** A rejected submit leaves the list and the draft as they were. */
  lemma SubmitRejected(users: seq<User>, s: FormState)
    requires |s.visibleTodos| > 0 && !Accepts(users, s, s.userId)
    ensures var r := SubmitStep(users, s);
      r.visibleTodos == s.visibleTodos && r.title == s.title && r.userId == s.userId
  {
  }

  /**
   * Whatever the outcome, the user error is raised exactly when the old user
   * id was 0 and the title error exactly when the old title was blank; a flag
   * is never raised back to true by a submit.
   */
  lemma SubmitFlags(users: seq<User>, s: FormState)
    requires |s.visibleTodos| > 0
    ensures var r := SubmitStep(users, s);
      r.userChosen == (s.userChosen && s.userId != 0) &&
      r.titleEntered == (s.titleEntered && !IsBlank(s.title))
  {
    TrimEmptyIffBlank(s.title);
  }

  /** When no user has id 0, an accepted submit leaves both flags alone. */
  lemma AcceptedSubmitKeepsFlags(users: seq<User>, s: FormState)
    requires |s.visibleTodos| > 0 && Accepts(users, s, s.userId)
    requires forall u :: u in users ==> u.id != 0
    ensures var r := SubmitStep(users, s);
      r.userChosen == s.userChosen && r.titleEntered == s.titleEntered
  {
  }

  /** In a reachable state where no user has id 0, an accepted submit leaves no error notice showing. */
  lemma AcceptedSubmitShowsNoError(users: seq<User>, seeded: nat, s: FormState)
    requires Invariant(users, seeded, s) && Accepts(users, s, s.userId)
    requires forall u :: u in users ==> u.id != 0
    ensures SubmitStep(users, s).titleEntered && SubmitStep(users, s).userChosen
  {
    TrimEmptyIffBlank(s.title);
    AcceptedSubmitKeepsFlags(users, s);
  }

  /** A non-zero id that no user has is rejected, and the user error is not raised for it. */
  lemma UnknownUserRejected(users: seq<User>, s: FormState)
    requires |s.visibleTodos| > 0 && s.userId != 0
    requires forall u :: u in users ==> u.id != s.userId
    ensures var r := SubmitStep(users, s);
      r.visibleTodos == s.visibleTodos && r.userId == s.userId && r.userChosen == s.userChosen
  {
  }

  // ---------------------------------------------------------------------------
  // What every transition keeps

  /**
   * The facts that hold in every state the form can reach, where `seeded` is
   * the number of fixture todos: the list is never empty, a lowered
   * `titleEntered` means the title is blank (all white space), a lowered
   * `userChosen` means the user id is 0, every entry's user is the lookup of its
   * `userId`, and each todo added after the fixtures has an id above every
   * id before it, a title that is not blank and `completed` false.
   */
  ghost predicate Invariant(users: seq<User>, seeded: nat, s: FormState)
  {
    var v := s.visibleTodos;
    0 < |v| && seeded <= |v| &&
    (!s.titleEntered ==> IsBlank(s.title)) &&
    (!s.userChosen ==> s.userId == 0) &&
    Resolved(users, v) &&
    (forall k, j :: seeded <= k < |v| && 0 <= j < k ==> v[j].id < v[k].id) &&
    (forall k :: seeded <= k < |v| ==> !IsBlank(v[k].title) && !v[k].completed)
  }

  lemma InitialInvariant(users: seq<User>, todos: seq<Todo>)
    requires |todos| > 0
    ensures Invariant(users, |todos|, Initial(users, todos))
  {
    JoinResolved(users, todos);
  }

  /** Appending a resolved, non-blank, uncompleted todo that carries the next id keeps the invariant. */
  lemma AppendKeepsInvariant(users: seq<User>, seeded: nat, s: FormState, e: EnrichedTodo)
    requires Invariant(users, seeded, s)
    requires e.id == NextTodoId(s.visibleTodos) && e.user == GetUser(users, e.userId)
    requires !IsBlank(e.title) && !e.completed
    ensures Invariant(users, seeded, s.(visibleTodos := s.visibleTodos + [e]))
  {
    var v := s.visibleTodos;
    var w := v + [e];
    forall k, j | seeded <= k < |w| && 0 <= j < k ensures w[j].id < w[k].id {
      assert w[j] == v[j];
      if k < |v| {
        assert w[k] == v[k];
      }
    }
  }

  lemma AddTodoKeepsInvariant(users: seq<User>, seeded: nat, s: FormState, id: int)
    requires Invariant(users, seeded, s)
    ensures Invariant(users, seeded, AddTodoStep(users, s, id))
    ensures s.visibleTodos <= AddTodoStep(users, s, id).visibleTodos
  {
    TrimEmptyIffBlank(s.title);
    var a := s;
    if Accepts(users, s, id) {
      var e := NewTodo(users, s);
      AppendKeepsInvariant(users, seeded, s, e);
      a := ResetStep(s.(visibleTodos := s.visibleTodos + [e]));
    }
    assert Invariant(users, seeded, a);
    var r := AddTodoStep(users, s, id);
    assert r == a.(userChosen := r.userChosen, titleEntered := r.titleEntered);
  }

  lemma TitleKeepsInvariant(users: seq<User>, seeded: nat, s: FormState, value: string)
    requires Invariant(users, seeded, s)
    ensures Invariant(users, seeded, TitleStep(s, value))
  {
  }

  lemma UserSelectKeepsInvariant(users: seq<User>, seeded: nat, s: FormState, n: int)
    requires Invariant(users, seeded, s)
    ensures Invariant(users, seeded, UserSelectStep(s, n))
  {
  }

  /** Fixture ids that were distinct stay distinct, whatever has been added since. */
  lemma InvariantGivesDistinctIds(users: seq<User>, seeded: nat, s: FormState)
    requires Invariant(users, seeded, s)
    requires DistinctIds(s.visibleTodos[..seeded])
    ensures DistinctIds(s.visibleTodos)
  {
    var v := s.visibleTodos;
    forall i, j | 0 <= i < j < |v| ensures v[i].id != v[j].id {
      if j < seeded {
        assert v[i] == v[..seeded][i] && v[j] == v[..seeded][j];
      }
    }
  }

  // ---------------------------------------------------------------------------
  // Sequences of events

  /** What the user can do to the form. */
  datatype Event = Submit | EditTitle(value: string) | SelectUser(id: int)

  /** Handling one event: only an accepted submit adds an entry, and it adds exactly one. */
  function Step(users: seq<User>, s: FormState, e: Event): (r: FormState)
    requires |s.visibleTodos| > 0
    ensures s.visibleTodos <= r.visibleTodos
    ensures |r.visibleTodos| == |s.visibleTodos| + (if e.Submit? && Accepts(users, s, s.userId) then 1 else 0)
  {
    match e
    case Submit => SubmitStep(users, s)
    case EditTitle(value) => TitleStep(s, value)
    case SelectUser(n) => UserSelectStep(s, n)
  }

  /** The state after handling `events` in order; the list only ever grows along the way. */
  function Run(users: seq<User>, s: FormState, events: seq<Event>): (r: FormState)
    requires |s.visibleTodos| > 0
    ensures s.visibleTodos <= r.visibleTodos
    decreases |events|
  {
    if events == [] then s else Run(users, Step(users, s, events[0]), events[1..])
  }

  lemma {:induction false} RunKeepsInvariant(users: seq<User>, seeded: nat, s: FormState, events: seq<Event>)
    requires Invariant(users, seeded, s)
    ensures Invariant(users, seeded, Run(users, s, events))
    decreases |events|
  {
    if events != [] {
      var t := Step(users, s, events[0]);
      match events[0] {
        case Submit => AddTodoKeepsInvariant(users, seeded, s, s.userId);
        case EditTitle(value) => TitleKeepsInvariant(users, seeded, s, value);
        case SelectUser(n) => UserSelectKeepsInvariant(users, seeded, s, n);
      }
      RunKeepsInvariant(users, seeded, t, events[1..]);
    }
  }

  /** Every state reachable from the initial one satisfies the invariant and still starts with the fixtures. */
  lemma ReachableStates(users: seq<User>, todos: seq<Todo>, events: seq<Event>)
    requires |todos| > 0
    ensures Invariant(users, |todos|, Run(users, Initial(users, todos), events))
    ensures Join(users, todos) <= Run(users, Initial(users, todos), events).visibleTodos
  {
    InitialInvariant(users, todos);
    RunKeepsInvariant(users, |todos|, Initial(users, todos), events);
  }

  /** A directory of one user and one todo: the join attaches the user. */
  lemma ScenarioInitial()
    ensures Initial([User(1, "Ann")], [Todo(1, 1, "Buy milk", false)]).visibleTodos ==
      [EnrichedTodo(1, 1, "Buy milk", false, Some(User(1, "Ann")))]
  {
    assert GetUser([User(1, "Ann")], 1) == Some(User(1, "Ann"));
  }

  /** From there, a valid submit appends todo 2 with that user and clears the draft. */
  lemma ScenarioAccepted()
    ensures var ann := User(1, "Ann");
      var list := [EnrichedTodo(1, 1, "Buy milk", false, Some(ann))];
      SubmitStep([ann], FormState("Call bank", 1, list, true, true)) ==
        FormState("", 0, list + [EnrichedTodo(2, 1, "Call bank", false, Some(ann))], true, true)
  {
    var ann := User(1, "Ann");
    var list := [EnrichedTodo(1, 1, "Buy milk", false, Some(ann))];
    var s := FormState("Call bank", 1, list, true, true);
    assert GetUser([ann], 1) == Some(ann);
    assert Ids(list) == [1];
    assert NextTodoId(list) == 2;
    assert TrimStart("Call bank") == "Call bank";
    assert Trim("Call bank") == "Call bank";
    assert Accepts([ann], s, 1);
  }

  /** With an empty title the submit only lowers `titleEntered`. */
  lemma ScenarioEmptyTitle()
    ensures var ann := User(1, "Ann");
      var s := FormState("", 1, [EnrichedTodo(1, 1, "Buy milk", false, Some(ann))], true, true);
      SubmitStep([ann], s) == s.(titleEntered := false)
  {
    assert Trim("") == "";
  }

  // ---------------------------------------------------------------------------
  // The component

  /** The state of one mounted `App`; each handler overwrites the fields it sets. */
  class AppForm {
    const users: seq<User>
    var title: string
    var userId: int
    var visibleTodos: seq<EnrichedTodo>
    var titleEntered: bool
    var userChosen: bool
    /** How many of the entries came from the todo directory. */
    ghost const seeded: nat

    function Snapshot(): FormState
      reads this
    {
      FormState(title, userId, visibleTodos, titleEntered, userChosen)
    }

    ghost predicate Valid()
      reads this
    {
      Invariant(users, seeded, Snapshot())
    }

    constructor (usersFromServer: seq<User>, todosFromServer: seq<Todo>)
      requires |todosFromServer| > 0
      ensures users == usersFromServer && seeded == |todosFromServer|
      ensures Snapshot() == Initial(usersFromServer, todosFromServer)
      ensures Valid()
    {
      users := usersFromServer;
      seeded := |todosFromServer|;
      title, userId := "", 0;
      visibleTodos := Join(usersFromServer, todosFromServer);
      titleEntered, userChosen := true, true;
      InitialInvariant(usersFromServer, todosFromServer);
    }

    method HandleReset()
      modifies this
      ensures Snapshot() == ResetStep(old(Snapshot()))
      ensures old(Valid()) ==> Valid()
    {
      userId := 0;
      title := "";
    }

    method AddTodo(id: int)
      requires Valid()
      modifies this
      ensures Valid()
      ensures Snapshot() == AddTodoStep(users, old(Snapshot()), id)
      ensures old(visibleTodos) <= visibleTodos
    {
      // the values the handler's closure captured
      var t, u, list := title, userId, visibleTodos;
      ghost var before := Snapshot();
      if GetUser(users, id).Some? && Trim(t) != "" {
        var created := EnrichedTodo(NextTodoId(list), u, t, false, GetUser(users, u));
        visibleTodos := visibleTodos + [created];
        HandleReset();
      }
      if u == 0 {
        userId := 0;
        userChosen := false;
      }
      if Trim(t) == "" {
        titleEntered := false;
      }
      AddTodoKeepsInvariant(users, seeded, before, id);
    }

    method HandleSubmit()
      requires Valid()
      modifies this
      ensures Valid()
      ensures Snapshot() == SubmitStep(users, old(Snapshot()))
    {
      AddTodo(userId);
    }

    method HandleTitle(value: string)
      requires Valid()
      modifies this
      ensures Valid()
      ensures Snapshot() == TitleStep(old(Snapshot()), value)
    {
      title := value;
      titleEntered := true;
    }

    method HandleUserSelect(n: int)
      requires Valid()
      modifies this
      ensures Valid()
      ensures Snapshot() == UserSelectStep(old(Snapshot()), n)
    {
      userId := n;
      userChosen := true;
    }
  }
}
