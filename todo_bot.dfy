/**
  The todo lifecycle of the bot: recovering the lens payload of a message,
  building and accepting todos, toggling completion, rendering a list as
  cards, and reacting to the `/todos` slash command and to card buttons.

  The store is passed explicitly; the chat platform's calls (fetching a
  message, sending cards) are replaced by parameters and results.
 */
module TodoBot {
  import opened Wrappers
  import opened Todos
  import opened MemoryStore

  /** The name of the lens that carries a todo's payload on a message. */
  const Lens: string := "Todo"
  /** Action name inside a card button's payload, and the label of an open todo's button. */
  const CompleteActionId: string := "Complete"
  /** The label of a completed todo's button. */
  const RemoveActionId: string := "Remove"

  /** Why accepting a todo can fail: the message was not fetched, or its lens payload is not JSON. */
  datatype Failure = FetchFailed | MalformedJson

  /** The JSON object carried by a card button: `{action, todoId}`, or `{}` when both are absent. */
  datatype Command = Command(action: Option<string>, todoId: Option<string>)

  const NoCommand: Command := Command(None, None)

  datatype CardButton = CardButton(caption: string, command: Command, secondary: bool)

  /** A rendered card: title, subtitle, body text, its buttons and its date. */
  datatype Card = Card(title: Option<string>, subtitle: string, text: string,
                       buttons: seq<CardButton>, date: int)

  /**
    A selected action as the catch-all handler sees it: the raw action id and
    what parsing that id as JSON gives (None when the parse throws).
   */
  datatype ActionSelection = ActionSelection(actionId: string, parsed: Option<Command>)

  /** What the catch-all handler does: nothing, or complete the todo with the given id. */
  datatype Reaction = Ignore | Complete(todoId: Option<string>)

  /** Which list the slash command shows. */
  datatype ListScope = SpaceScope | PersonalScope

  /** The position of the first annotation whose lens is `Todo` (`annotations.find`). */
  function FindLens(anns: seq<Annotation>): (r: Option<nat>)
    ensures r.Some? ==> r.value < |anns| && anns[r.value].lens == Some(Lens)
                        && forall j :: 0 <= j < r.value ==> anns[j].lens != Some(Lens)
    ensures r.None? ==> forall j :: 0 <= j < |anns| ==> anns[j].lens != Some(Lens)
  {
    if anns == [] then None
    else if anns[0].lens == Some(Lens) then Some(0)
    else match FindLens(anns[1..])
      case None => None
      case Some(i) => Some(i + 1)
  }

  /**
    `getTodoLensPayload`: the decoded payload of the first `Todo` lens
    annotation, or `{}` when there is none; parsing a malformed payload throws.
   */
  function TodoLensPayload(m: Message): (r: Result<LensPayload, Failure>)
    ensures (forall i :: 0 <= i < |m.annotations| ==> m.annotations[i].lens != Some(Lens))
            ==> r == Ok(EmptyPayload)
    ensures forall i :: 0 <= i < |m.annotations| && m.annotations[i].lens == Some(Lens)
                        && (forall j :: 0 <= j < i ==> m.annotations[j].lens != Some(Lens))
                        ==> r == (match m.annotations[i].payload
                                  case Some(p) => Ok(p)
                                  case None => Err(MalformedJson))
  {
    match FindLens(m.annotations)
    case None => Ok(EmptyPayload)
    case Some(i) =>
      match m.annotations[i].payload
      case Some(p) => Ok(p)
      case None => Err(MalformedJson)
  }

  /**
    `buildTodo`: a fresh, uncompleted todo in space `spaceId` with id `id`,
    copying the message's date, author, id and content and carrying its lens
    payload; fails when that payload does not parse.
   */
  method BuildTodo(m: Message, spaceId: string, id: string) returns (r: Result<Todo, Failure>)
    ensures r.Ok? <==> TodoLensPayload(m).Ok?
    ensures r.Ok? ==>
              var t := r.value;
              && fresh(t) && !t.completed
              && t.id == id && t.spaceId == spaceId
              && t.created == m.created && t.createdBy == m.createdBy
              && t.messageId == m.id && t.content == m.content
              && t.payload == TodoLensPayload(m).value
  {
    match TodoLensPayload(m)
    case Err(e) =>
      r := Err(e);
    case Ok(p) =>
      var t := new Todo(id, m.created, m.createdBy, m.id, m.content, p, spaceId);
      r := Ok(t);
  }

  /**
    The card `showTodoList` renders for todo `t` when `viewer` looks at it:
    one button, captioned "Remove" and secondary exactly when `t` is
    completed, carrying a complete command for `t` exactly when the viewer
    created it and the empty command otherwise.
   */
  function RenderCard(t: Todo, viewer: string): (c: Card)
    reads t
    ensures |c.buttons| == 1
    ensures c.buttons[0].caption == (if t.completed then "Remove" else "Complete")
    ensures c.buttons[0].secondary <==> t.completed
    ensures c.buttons[0].command.action.Some? <==> viewer == t.createdBy.id
    ensures c.buttons[0].command.action.Some? ==> c.buttons[0].command == Command(Some("Complete"), Some(t.id))
    ensures c.buttons[0].command.action.None? ==> c.buttons[0].command == NoCommand
    ensures c.title == t.payload.phrase && c.subtitle == t.createdBy.displayName
    ensures c.text == t.content && c.date == t.created
  {
    var caption := if t.completed then RemoveActionId else CompleteActionId;
    var command := if viewer == t.createdBy.id then Command(Some(CompleteActionId), Some(t.id)) else NoCommand;
    Card(t.payload.phrase, t.createdBy.displayName, t.content, [CardButton(caption, command, t.completed)], t.created)
  }

  /** One card per todo, in the todos' order. */
  function Rendered(todos: seq<Todo>, viewer: string): (cards: seq<Card>)
    reads set t | t in todos
    ensures |cards| == |todos|
    ensures forall i :: 0 <= i < |todos| ==> cards[i] == RenderCard(todos[i], viewer)
    decreases |todos|
  {
    if todos == [] then []
    else Rendered(todos[..|todos| - 1], viewer) + [RenderCard(todos[|todos| - 1], viewer)]
  }

  /** The todos `showTodoList` shows: the space's list when a space id is given, else the user's. */
  ghost function Shown(store: TodoStore, userId: string, spaceId: Option<string>): seq<Todo>
    requires store.Valid()
    reads store
  {
    if Truthy(spaceId) then store.SpaceTodos(spaceId.value) else store.UserTodos(userId)
  }

  /**
    `showTodoList`: one card per todo of the space (or, without a space id,
    of the user), in store order. A button reads "Remove" and is secondary
    exactly when its todo is completed, and carries a complete command for
    the todo only when the viewer created it.
   */
  method ShowTodoList(store: TodoStore, userId: string, spaceId: Option<string>) returns (cards: seq<Card>)
    requires store.Valid()
    ensures cards == Rendered(Shown(store, userId, spaceId), userId)
  {
    var todos: seq<Todo>;
    if Truthy(spaceId) {
      todos := store.ListSpace(spaceId.value);
    } else {
      todos := store.List(userId);
    }
    cards := RenderCards(todos, userId);
  }

  /** The loop of `showTodoList` that turns each todo into its card. */
  method RenderCards(todos: seq<Todo>, userId: string) returns (cards: seq<Card>)
    ensures cards == Rendered(todos, userId)
  {
    cards := [];
    for i := 0 to |todos|
      invariant cards == Rendered(todos[..i], userId)
    {
      var todo := todos[i];
      var buttonText := if todo.completed then RemoveActionId else CompleteActionId;
      var isSecondary := todo.completed;
      var completeButton := NoCommand;
      if userId == todo.createdBy.id {
        completeButton := Command(Some(CompleteActionId), Some(todo.id));
      }
      cards := cards + [Card(todo.payload.phrase, todo.createdBy.displayName, todo.content,
                             [CardButton(buttonText, completeButton, isSecondary)], todo.created)];
      assert todos[..i + 1] == todos[..i] + [todo];
    }
    assert todos[..|todos|] == todos;
  }

  /**
    The completion flags after a step: `target`'s is flipped, every other
    todo's is as before.
   */
  twostate predicate FlippedOnly(todos: set<Todo>, target: Option<Todo>)
    reads todos
  {
    forall o :: o in todos ==>
      o.completed == (if target == Some(o) then !old(o.completed) else old(o.completed))
  }

  /**
    `completeTodo`: flips the todo that `find(todoId, userId)` yields and
    renders the user's list again; when find yields nothing, changes nothing.
   */
  method CompleteTodo(store: TodoStore, todoId: string, userId: string) returns (cards: Option<seq<Card>>)
    requires store.Valid()
    modifies store.Todos()
    ensures FlippedOnly(store.Todos(), store.Lookup(todoId, Some(userId)))
    ensures cards.Some? <==> store.Lookup(todoId, Some(userId)).Some?
    ensures cards.Some? ==> cards.value == Rendered(store.UserTodos(userId), userId)
  {
    var todo := store.Find(todoId, Some(userId));
    if todo.Some? {
      todo.value.completed := !todo.value.completed;
      var list := ShowTodoList(store, userId, None);
      cards := Some(list);
    } else {
      cards := None;
    }
  }

  /** Completing the same todo twice leaves every todo as it was. */
  method CompleteTwice(store: TodoStore, todoId: string, userId: string)
    requires store.Valid()
    modifies store.Todos()
    ensures forall o :: o in store.Todos() ==> o.completed == old(o.completed)
  {
    var _ := CompleteTodo(store, todoId, userId);
    var _ := CompleteTodo(store, todoId, userId);
  }

  /**
    The catch-all action handler: it reacts only to an action id whose first
    character is `{` and whose decoded `action` is `Complete`.
   */
  function Dispatch(a: ActionSelection): (r: Reaction)
    ensures r.Complete? <==> |a.actionId| > 0 && a.actionId[0] == '{'
                             && a.parsed.Some? && a.parsed.value.action == Some(CompleteActionId)
    ensures r.Complete? ==> r.todoId == a.parsed.value.todoId
  {
    if |a.actionId| > 0 && a.actionId[0] == '{' then
      match a.parsed
      case None => Ignore
      case Some(c) => if c.action == Some(CompleteActionId) then Complete(c.todoId) else Ignore
    else Ignore
  }

  /** The action the platform reports when a button carrying `c` is selected: its JSON text. */
  predicate Carries(a: ActionSelection, c: Command) {
    |a.actionId| > 0 && a.actionId[0] == '{' && a.parsed == Some(c)
  }

  /** The todo a reaction toggles for `userId` (a missing todo id matches no todo). */
  ghost function Target(store: TodoStore, r: Reaction, userId: string): Option<Todo>
    reads store
  {
    match r
    case Complete(Some(id)) => store.Lookup(id, Some(userId))
    case _ => None
  }

  /** The catch-all action handler, run for the user who selected the action. */
  method HandleAction(store: TodoStore, a: ActionSelection, userId: string) returns (cards: Option<seq<Card>>)
    requires store.Valid()
    modifies store.Todos()
    ensures FlippedOnly(store.Todos(), Target(store, Dispatch(a), userId))
    ensures cards.Some? <==> Target(store, Dispatch(a), userId).Some?
    ensures cards.Some? ==> cards.value == Rendered(store.UserTodos(userId), userId)
  {
    match Dispatch(a)
    case Complete(Some(id)) =>
      cards := CompleteTodo(store, id, userId);
    case _ =>
      cards := None;
  }

  /**
    A shown todo is the one its creator's bucket holds under its id; in the
    personal list its creator is the viewer.
   */
  lemma ShownIsFiled(store: TodoStore, viewer: string, spaceId: Option<string>, t: Todo)
    requires store.Valid()
    requires Truthy(spaceId) ==> UniqueIds(store.History)
    requires t in Shown(store, viewer, spaceId)
    ensures BucketOf(store.userStorage, t.createdBy.id).Get(t.id) == Some(t)
    ensures !Truthy(spaceId) ==> t.createdBy.id == viewer
  {
    if Truthy(spaceId) {
      SpaceEntryInBucket(store.History, spaceId.value, t);
    } else {
      UserIndexWellFormed(store.History);
      var b := BucketOf(store.userStorage, viewer);
      assert t in b.Values();
      var k :| k in b.entries && b.entries[k] == t;
      assert Owns(b.entries[k], viewer, k);
    }
  }

  /**
    Selecting the button of a shown card: when the viewer created the todo,
    the handler completes exactly that todo, which `find` for the viewer
    yields; on anyone else's card the button does nothing. Ids must be unique
    for a space list (its todo must be the one its creator's bucket holds) and
    for an empty viewer id (`find` then scans every bucket).
   */
  lemma CardButtonTargetsItsTodo(store: TodoStore, viewer: string, spaceId: Option<string>,
                                 i: nat, a: ActionSelection)
    requires store.Valid()
    requires (Truthy(spaceId) || viewer == "") ==> UniqueIds(store.History)
    requires i < |Shown(store, viewer, spaceId)|
    requires Carries(a, RenderCard(Shown(store, viewer, spaceId)[i], viewer).buttons[0].command)
    ensures var t := Shown(store, viewer, spaceId)[i];
            && (Dispatch(a).Complete? <==> t.createdBy.id == viewer)
            && (Dispatch(a).Complete? ==> Target(store, Dispatch(a), viewer) == Some(t))
  {
    var t := Shown(store, viewer, spaceId)[i];
    ShownIsFiled(store, viewer, spaceId, t);
    if viewer == "" {
      FiledIsFound(store.History, t);
    }
  }

  /**
    In the personal list every button is live: the viewer created every
    todo it shows.
   */
  lemma PersonalCardsAreLive(store: TodoStore, viewer: string, i: nat)
    requires store.Valid()
    requires i < |store.UserTodos(viewer)|
    ensures var t := store.UserTodos(viewer)[i];
            RenderCard(t, viewer).buttons[0].command == Command(Some(CompleteActionId), Some(t.id))
  {
    UserIndexWellFormed(store.History);
    var b := BucketOf(store.userStorage, viewer);
    var t := store.UserTodos(viewer)[i];
    assert t in b.Values();
    var k :| k in b.entries && b.entries[k] == t;
    assert Owns(b.entries[k], viewer, k);
  }

  /**
    `acceptTodo`: from the fetched referral message, builds a todo owned by
    the message's author in the conversation the action came from, files it,
    and renders the accepting user's list. Nothing is filed when the message
    could not be fetched or its lens payload does not parse.
   */
  method AcceptTodo(store: TodoStore, userId: string, conversationId: string,
                    fetched: Option<Message>, freshId: string) returns (cards: Option<seq<Card>>)
    requires store.Valid() && UniqueIds(store.History)
    requires forall t :: t in store.History ==> t.id != freshId
    modifies store
    ensures store.Valid() && UniqueIds(store.History)
    ensures (fetched.None? || TodoLensPayload(fetched.value).Err?) ==>
              cards.None? && store.History == old(store.History)
    ensures (fetched.Some? && TodoLensPayload(fetched.value).Ok?) ==>
              && |store.History| == |old(store.History)| + 1
              && store.History[..|old(store.History)|] == old(store.History)
              && var t := store.History[|old(store.History)|];
              && fresh(t) && !t.completed && t.id == freshId
              && t.createdBy == fetched.value.createdBy && t.spaceId == conversationId
              && t.created == fetched.value.created && t.messageId == fetched.value.id
              && t.content == fetched.value.content && t.payload == TodoLensPayload(fetched.value).value
              && BucketOf(store.userStorage, t.createdBy.id).Get(freshId) == Some(t)
              && store.Lookup(freshId, Some(t.createdBy.id)) == Some(t)
              && store.SpaceTodos(conversationId) == old(store.SpaceTodos(conversationId)) + [t]
              && cards == Some(Rendered(store.UserTodos(userId), userId))
  {
    if fetched.None? {
      return None;
    }
    var built := BuildTodo(fetched.value, conversationId, freshId);
    if built.Err? {
      return None;
    }
    var todo := built.value;
    store.Create(todo);
    FreshKeepsUnique(old(store.History), todo);
    FiledIsFound(store.History, todo);
    assert store.History[..|old(store.History)|] == old(store.History);
    var list := ShowTodoList(store, userId, None);
    cards := Some(list);
  }

  /** A-Z to a-z, other characters unchanged (`toLowerCase` on the letters that matter here). */
  function LowerChar(c: char): (r: char)
    ensures !('A' <= r <= 'Z')
    ensures !('A' <= c <= 'Z') ==> r == c
    ensures 'A' <= c <= 'Z' ==> 'a' <= r <= 'z' && r as int - 'a' as int == c as int - 'A' as int
  {
    if 'A' <= c <= 'Z' then (c as int + 32) as char else c
  }

  /** `toLowerCase`: the same length, no capital left, every other character kept. */
  function Lower(s: string): (r: string)
    ensures |r| == |s|
    ensures forall i :: 0 <= i < |s| ==> !('A' <= r[i] <= 'Z')
    ensures forall i :: 0 <= i < |s| && !('A' <= s[i] <= 'Z') ==> r[i] == s[i]
  {
    seq(|s|, i requires 0 <= i < |s| => LowerChar(s[i]))
  }

  /**
    The list the slash command selects: the space's when it has no
    parameter or the first lowercases to `space`, the user's for `me`, and
    none for any other argument.
   */
  function SlashScope(params: seq<string>): (r: Option<ListScope>)
    ensures r == Some(SpaceScope) <==> |params| == 0 || Lower(params[0]) == "space"
    ensures r == Some(PersonalScope) <==> |params| > 0 && Lower(params[0]) == "me"
  {
    var option := if |params| > 0 then Lower(params[0]) else "space";
    if option == "space" then Some(SpaceScope)
    else if option == "me" then Some(PersonalScope)
    else None
  }

  /**
    A string lowercases to the lower-case word `w` exactly when each of its
    characters is the letter of `w` in either case (`W` is `w` in upper case).
   */
  lemma LowerMatches(p: string, w: string, W: string)
    requires |w| == |W|
    requires forall i :: 0 <= i < |w| ==> 'a' <= w[i] <= 'z' && W[i] as int == w[i] as int - 32
    ensures Lower(p) == w <==> |p| == |w| && forall i :: 0 <= i < |p| ==> p[i] == w[i] || p[i] == W[i]
  {
    if Lower(p) == w {
      forall i | 0 <= i < |p| ensures p[i] == w[i] || p[i] == W[i] {
        assert LowerChar(p[i]) == w[i];
      }
    }
    if |p| == |w| && forall i :: 0 <= i < |p| ==> p[i] == w[i] || p[i] == W[i] {
      assert forall i :: 0 <= i < |p| ==> Lower(p)[i] == w[i];
    }
  }

  /** The slash command accepts `space` and `me` in any mix of cases, and shows the space by default. */
  lemma SlashSpellings(p: string, rest: seq<string>)
    ensures SlashScope([]) == Some(SpaceScope)
    ensures SlashScope([p] + rest) == Some(SpaceScope) <==>
              |p| == 5 && forall i :: 0 <= i < 5 ==> p[i] == "space"[i] || p[i] == "SPACE"[i]
    ensures SlashScope([p] + rest) == Some(PersonalScope) <==>
              |p| == 2 && forall i :: 0 <= i < 2 ==> p[i] == "me"[i] || p[i] == "ME"[i]
  {
    LowerMatches(p, "space", "SPACE");
    LowerMatches(p, "me", "ME");
  }

  /**
    `doSlash`: shows the conversation's list for `space` (the default), the
    user's own list for `me`, and nothing for any other argument.
   */
  method DoSlash(store: TodoStore, userId: string, conversationId: Option<string>, params: seq<string>)
    returns (cards: Option<seq<Card>>)
    requires store.Valid()
    ensures cards.Some? <==> SlashScope(params).Some?
    ensures SlashScope(params) == Some(SpaceScope) ==>
              cards == Some(Rendered(Shown(store, userId, conversationId), userId))
    ensures SlashScope(params) == Some(PersonalScope) ==>
              cards == Some(Rendered(store.UserTodos(userId), userId))
  {
    var option := "space";
    if |params| > 0 {
      option := Lower(params[0]);
    }
    if option == "space" {
      var list := ShowTodoList(store, userId, conversationId);
      cards := Some(list);
    } else if option == "me" {
      var list := ShowTodoList(store, userId, None);
      cards := Some(list);
    } else {
      cards := None;
    }
  }
}
