/** The process-wide registry of Responses WebSocket connections and the counters it guards. */
module ResponsesRegistry {
  import opened Totals

  type Connection = nat

  /** The configured limits, at least one each. */
  datatype Limits = Limits(total: int, perToken: int)

  function AtLeastOne(n: int): int {
    if n < 1 then 1 else n
  }

  datatype RegistryView = RegistryView(total: int, tokens: map<int, int>, sessions: set<Connection>, stopping: bool)

  function CountOf(r: RegistryView, token: int): int {
    if token in r.tokens then r.tokens[token] else 0
  }

  predicate Admits(r: RegistryView, limits: Limits, token: int) {
    !r.stopping && r.total < AtLeastOne(limits.total) && CountOf(r, token) < AtLeastOne(limits.perToken)
  }

  function Reserved(r: RegistryView, limits: Limits, token: int): RegistryView {
    if !Admits(r, limits, token) then r
    else r.(total := r.total + 1, tokens := r.tokens[token := CountOf(r, token) + 1])
  }

  /** A token whose count returns to zero is forgotten. */
  function Released(r: RegistryView, token: int): RegistryView {
    var n := CountOf(r, token) - 1;
    r.(total := r.total - 1, tokens := if n == 0 then r.tokens - {token} else r.tokens[token := n])
  }

  function Registered(r: RegistryView, c: Connection): RegistryView {
    if r.stopping then r else r.(sessions := r.sessions + {c})
  }

  // ---------------------------------------------------------------- balance

  /** The total is the sum of the token counts, counts are positive, and both limits hold. */
  ghost predicate Balanced(r: RegistryView, limits: Limits) {
    && r.total == Sum(r.tokens) <= AtLeastOne(limits.total)
    && forall t | t in r.tokens :: 0 < r.tokens[t] <= AtLeastOne(limits.perToken)
  }

  lemma ReserveBalanced(r: RegistryView, limits: Limits, token: int)
    requires Balanced(r, limits)
    ensures Balanced(Reserved(r, limits, token), limits)
  {
    SumUpdate(r.tokens, token, CountOf(r, token) + 1);
  }

  /** Releasing a held place takes one off its token and no other. */
  lemma ReleaseBalanced(r: RegistryView, limits: Limits, token: int)
    requires Balanced(r, limits) && token in r.tokens
    ensures Balanced(Released(r, token), limits)
    ensures forall t: int :: CountOf(Released(r, token), t) == CountOf(r, t) - if t == token then 1 else 0
  {
    SumTake(r.tokens, token);
    SumUpdate(r.tokens, token, CountOf(r, token) - 1);
  }

  /** A release undoes a reservation, and a place given back can be taken again unless the process is stopping. */
  lemma ReserveAndReleaseInvert(r: RegistryView, limits: Limits, token: int)
    requires Balanced(r, limits)
    ensures Admits(r, limits, token) ==> Released(Reserved(r, limits, token), token) == r
    ensures token in r.tokens && !r.stopping ==> Reserved(Released(r, token), limits, token) == r
  {
    if token in r.tokens {
      var n := r.tokens[token];
      assert r.tokens[token := n + 1][token := n] == r.tokens;
      assert r.tokens[token := n - 1][token := n] == r.tokens;
      assert (r.tokens - {token})[token := n] == r.tokens;
    } else {
      assert r.tokens[token := 1] - {token} == r.tokens;
    }
  }

  class Registry {
    const limits: Limits
    var total: int
    var tokens: map<int, int>
    var sessions: set<Connection>
    var stopping: bool

    ghost function View(): RegistryView
      reads this
    {
      RegistryView(total, tokens, sessions, stopping)
    }

    ghost predicate Valid()
      reads this
    {
      Balanced(View(), limits)
    }

    constructor (limits: Limits)
      ensures Valid() && this.limits == limits && View() == RegistryView(0, map[], {}, false)
    {
      this.limits := limits;
      total, tokens, sessions, stopping := 0, map[], {}, false;
    }

    /** Takes a place for the token unless the process is stopping or a limit is reached. */
    method Reserve(token: int) returns (ok: bool)
      requires Valid()
      modifies this`total, this`tokens
      ensures Valid()
      ensures ok <==> !stopping && old(Sum(tokens)) < AtLeastOne(limits.total)
                      && old(CountOf(View(), token)) < AtLeastOne(limits.perToken)
      ensures View() == Reserved(old(View()), limits, token)
    {
      ReserveBalanced(View(), limits, token);
      var count := if token in tokens then tokens[token] else 0;
      if stopping || total >= AtLeastOne(limits.total) || count >= AtLeastOne(limits.perToken) {
        return false;
      }
      total := total + 1;
      tokens := tokens[token := count + 1];
      return true;
    }

    /** Gives back a place of the token. */
    method Release(token: int)
      requires Valid() && token in tokens
      modifies this`total, this`tokens
      ensures Valid() && Sum(tokens) == old(Sum(tokens)) - 1
      ensures View() == Released(old(View()), token)
    {
      ReleaseBalanced(View(), limits, token);
      total := total - 1;
      tokens := tokens[token := tokens[token] - 1];
      if tokens[token] == 0 {
        tokens := tokens - {token};
        assert tokens == old(tokens) - {token};
      }
      assert View() == Released(old(View()), token);
    }

    /** Enters a session unless the process is stopping. */
    method Register(c: Connection) returns (ok: bool)
      requires Valid()
      modifies this`sessions
      ensures Valid() && ok == !stopping
      ensures View() == Registered(old(View()), c)
    {
      if stopping {
        return false;
      }
      sessions := sessions + {c};
      return true;
    }

    method Unregister(c: Connection)
      requires Valid()
      modifies this`sessions
      ensures Valid() && View() == old(View()).(sessions := old(sessions) - {c})
    {
      sessions := sessions - {c};
    }

    /** Shutdown's critical section: no session enters any more, and those present are listed. */
    method BeginShutdown() returns (present: set<Connection>)
      requires Valid()
      modifies this`stopping
      ensures Valid() && present == sessions && View() == old(View()).(stopping := true)
    {
      stopping := true;
      present := sessions;
    }
  }
}
