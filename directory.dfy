/**
 * The two fixture directories and the join that enriches every todo with its
 * user. Both directories are arbitrary ordered sequences: nothing here assumes
 * that user ids are unique or positive.
 */
module Directory {
  import opened Optional

  datatype User = User(id: int, name: string)

  /** A todo as the todo directory supplies it. */
  datatype Todo = Todo(id: int, userId: int, title: string, completed: bool)

  /** A todo with its user resolved: the `Todos` records the list renders. */
  datatype EnrichedTodo = EnrichedTodo(id: int, userId: int, title: string, completed: bool, user: Option<User>)

  /**
   * `usersFromServer.find(user => user.id === userId) || null`: the first user
   * in directory order with that id, or `None` when there is none.
   */
  function GetUser(users: seq<User>, userId: int): (r: Option<User>)
    ensures r.None? <==> forall u :: u in users ==> u.id != userId
    ensures r.Some? ==> r.value in users && r.value.id == userId
  {
    if users == [] then None
    else if users[0].id == userId then Some(users[0])
    else GetUser(users[1..], userId)
  }

  /** Of several users with the same id, the lookup returns the one that comes first. */
  lemma {:induction false} GetUserIsFirstMatch(users: seq<User>, userId: int, k: nat)
    requires k < |users| && users[k].id == userId
    requires forall j :: 0 <= j < k ==> users[j].id != userId
    ensures GetUser(users, userId) == Some(users[k])
  {
    if k > 0 {
      GetUserIsFirstMatch(users[1..], userId, k - 1);
    }
  }

  /** The todo with `user` set to the result of the lookup. */
  function Enrich(users: seq<User>, t: Todo): EnrichedTodo
  {
    EnrichedTodo(t.id, t.userId, t.title, t.completed, GetUser(users, t.userId))
  }

  /** Forgets the resolved user again. */
  function Strip(e: EnrichedTodo): Todo
  {
    Todo(e.id, e.userId, e.title, e.completed)
  }

  /**
   * `todosFromServer.map(todo => ({...todo, user: getUser(todo.userId)}))`:
   * entry i is todo i, in the same order, with its user attached.
   */
  function Join(users: seq<User>, todos: seq<Todo>): (r: seq<EnrichedTodo>)
    ensures |r| == |todos|
    ensures forall i :: 0 <= i < |r| ==>
      r[i].id == todos[i].id && r[i].userId == todos[i].userId &&
      r[i].title == todos[i].title && r[i].completed == todos[i].completed
    ensures forall i :: 0 <= i < |r| ==> r[i].user == GetUser(users, todos[i].userId)
  {
    if todos == [] then [] else [Enrich(users, todos[0])] + Join(users, todos[1..])
  }

  /** Every entry of the join carries the user its own `userId` resolves to. */
  predicate Resolved(users: seq<User>, list: seq<EnrichedTodo>)
  {
    forall e :: e in list ==> e.user == GetUser(users, e.userId)
  }

  /** Dropping the users from the join gives back the todo directory. */
  lemma {:induction false} StripJoin(users: seq<User>, todos: seq<Todo>)
    ensures seq(|todos|, i requires 0 <= i < |todos| => Strip(Join(users, todos)[i])) == todos
  {
    var r := Join(users, todos);
    var back := seq(|todos|, i requires 0 <= i < |todos| => Strip(r[i]));
    forall i | 0 <= i < |todos| ensures back[i] == todos[i] {
    }
  }

  /** The join resolves every entry, and an entry has a user exactly when the directory holds one with its `userId`. */
  lemma JoinResolved(users: seq<User>, todos: seq<Todo>)
    ensures Resolved(users, Join(users, todos))
    ensures forall i :: 0 <= i < |todos| ==>
      (Join(users, todos)[i].user.Some? <==> exists u :: u in users && u.id == todos[i].userId)
  {
  }
}
