/**
 * The mock authentication provider: a user slot and a loading flag, changed
 * by three asynchronous operations. Each operation is written as the list of
 * effects it performs in order; the simulated network delay is recorded as
 * an effect carrying its duration instead of being waited for.
 */
module AuthContext {
  import opened Wrappers

  datatype User = User(uid: string, email: Option<string>, displayName: Option<string>, photoURL: Option<string>)

  datatype AuthState = AuthState(user: Option<User>, loading: bool)

  /** The provider's state when it mounts: nobody signed in, not loading. */
  const InitialState := AuthState(None, false)

  datatype AuthOp = SignInWithGoogle | SignInWithEmail(name: string, email: string) | SignOut

  datatype Effect = SetLoading(on: bool) | Delay(ms: nat) | SetUser(user: Option<User>)

  const GoogleDelayMs := 800
  const EmailDelayMs := 800
  const SignOutDelayMs := 400

  const DemoUser := User("mock-google-user-123", Some("demo.user@gmail.com"), Some("Demo User"), Some("https://github.com/shadcn.png"))

  /** The user an email sign-in produces: the name, or "User" when it is empty. */
  function EmailUser(name: string, email: string): (u: User)
    ensures u.uid == "mock-email-user-456" && u.email == Some(email) && u.photoURL == None
    ensures u.displayName == Some(if name == "" then "User" else name)
  {
    User("mock-email-user-456", Some(email), OrElse(Some(name), Some("User")), None)
  }

  /** The effects each operation performs, in program order. */
  function Effects(op: AuthOp): seq<Effect> {
    match op
    case SignInWithGoogle => [SetLoading(true), Delay(GoogleDelayMs), SetUser(Some(DemoUser)), SetLoading(false)]
    case SignInWithEmail(name, email) => [SetLoading(true), Delay(EmailDelayMs), SetUser(Some(EmailUser(name, email))), SetLoading(false)]
    case SignOut => [SetLoading(true), Delay(SignOutDelayMs), SetUser(None), SetLoading(false)]
  }

  function ApplyEffect(s: AuthState, e: Effect): AuthState {
    match e
    case SetLoading(on) => s.(loading := on)
    case Delay(_) => s
    case SetUser(u) => s.(user := u)
  }

  /** The state after each effect in turn. */
  function Exec(s: AuthState, es: seq<Effect>): (states: seq<AuthState>)
    ensures |states| == |es|
    ensures forall i :: 0 <= i < |es| ==> states[i] == ApplyEffect(if i == 0 then s else states[i - 1], es[i])
    decreases |es|
  {
    if es == [] then []
    else
      var first := ApplyEffect(s, es[0]);
      var rest := Exec(first, es[1..]);
      assert forall i :: 1 <= i < |es| ==> es[1..][i - 1] == es[i];
      [first] + rest
  }

  /** The user an operation leaves signed in. */
  function SignedInAs(op: AuthOp): Option<User> {
    match op
    case SignInWithGoogle => Some(DemoUser)
    case SignInWithEmail(name, email) => Some(EmailUser(name, email))
    case SignOut => None
  }

  /** The state once an operation has completed. */
  function Run(s: AuthState, op: AuthOp): (r: AuthState)
    ensures r == Exec(s, Effects(op))[|Effects(op)| - 1]
    ensures !r.loading && r.user == SignedInAs(op)
  {
    LoadingBracketsEachOperation(s, op);
    Exec(s, Effects(op))[3]
  }

  /**
   * Every operation raises `loading` before its delay, holds it through the
   * delay and the user update, and clears it at the end, where the user is
   * the operation's own.
   */
  lemma LoadingBracketsEachOperation(s: AuthState, op: AuthOp)
    ensures var es := Effects(op);
      var st := Exec(s, es);
      && (forall i :: 0 <= i < |st| - 1 ==> st[i].loading)
      && (forall i :: 0 <= i < |es| && es[i].Delay? ==> 0 < i < |es| - 1 && st[i - 1].loading)
      && !st[|st| - 1].loading
      && st[|st| - 1].user == SignedInAs(op)
  {
    var es := Effects(op);
    var st := Exec(s, es);
    assert st[0] == s.(loading := true);
    assert st[1] == st[0];
    assert st[2] == st[1].(user := SignedInAs(op));
    assert st[3] == st[2].(loading := false);
  }

  /** Completed operations end not loading, with the user given by the last one. */
  function RunAll(s: AuthState, ops: seq<AuthOp>): (r: AuthState)
    ensures ops != [] ==> !r.loading && r.user == SignedInAs(ops[|ops| - 1])
    ensures ops == [] ==> r == s
    decreases |ops|
  {
    if ops == [] then s
    else
      var r := RunAll(Run(s, ops[0]), ops[1..]);
      assert ops[1..] != [] ==> ops[1..][|ops[1..]| - 1] == ops[|ops| - 1];
      r
  }

  /** From the initial state, nobody is signed in exactly when no operation ran or the last one signed out. */
  lemma {:induction false} SignedOutIff(ops: seq<AuthOp>)
    ensures RunAll(InitialState, ops).user.None? <==> (ops == [] || ops[|ops| - 1] == SignOut)
    ensures !RunAll(InitialState, ops).loading
  {
    if ops != [] {
      var last := ops[|ops| - 1];
      assert SignedInAs(last).None? <==> last == SignOut;
    }
  }

  /** The value a provider shares: its state and the three operations. */
  datatype ContextValue = ContextValue(state: AuthState)

  datatype Hooked = Provided(value: ContextValue) | Threw(message: string)

  const OutsideProviderMessage := "useAuth must be used within an AuthProvider"

  /** `useAuth`: the nearest provider's value, or a throw when there is none. */
  function UseAuth(provider: Option<ContextValue>): (r: Hooked)
    ensures r.Threw? <==> provider.None?
    ensures r.Threw? ==> r.message == OutsideProviderMessage
    ensures r.Provided? ==> r.value == provider.value
  {
    match provider
    case None => Threw(OutsideProviderMessage)
    case Some(v) => Provided(v)
  }
}
