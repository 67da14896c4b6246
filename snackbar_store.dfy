/**
 * The notification store: whether the snackbar is open, its text and its
 * severity. `showSnackbar` overwrites all three; `closeSnackbar` is a partial
 * update that only closes it.
 */
module SnackbarStore {
  import opened Wrappers

  datatype Severity = Success | Error | Warning | Info

  /** The store's data fields. */
  datatype State = State(open: bool, message: string, severity: Severity)

  /** The state the store is created with. */
  const Initial := State(false, "", Info)

  /** `showSnackbar(message, severity)`; an omitted severity is None and defaults to Info. */
  function Show(st: State, message: string, severity: Option<Severity>): State {
    State(true, message, if severity.Some? then severity.value else Info)
  }

  /** `closeSnackbar()`: `set({ open: false })` merges into the state. */
  function Close(st: State): State {
    st.(open := false)
  }

  /** Showing opens the snackbar with the given text; without a severity it is Info. */
  lemma ShowSpec(st: State, message: string, severity: Option<Severity>)
    ensures Show(st, message, severity).open && Show(st, message, severity).message == message
    ensures severity.None? ==> Show(st, message, severity).severity == Info
    ensures severity.Some? ==> Show(st, message, severity).severity == severity.value
  {
  }

  /** Of two consecutive `showSnackbar` calls the last one wins. */
  lemma LastShowWins(st: State, m1: string, s1: Option<Severity>, m2: string, s2: Option<Severity>)
    ensures Show(Show(st, m1, s1), m2, s2) == Show(st, m2, s2)
  {
  }

  /** Closing keeps the text and severity, and closing again changes nothing. */
  lemma CloseSpec(st: State)
    ensures !Close(st).open
    ensures Close(st).message == st.message && Close(st).severity == st.severity
    ensures Close(Close(st)) == Close(st)
  {
  }

  /** The zustand store; its fields are overwritten in place by the two actions. */
  class Store {
    var open: bool
    var message: string
    var severity: Severity

    function Value(): State
      reads this
    {
      State(open, message, severity)
    }

    constructor ()
      ensures Value() == Initial
    {
      open := false;
      message := "";
      severity := Info;
    }

    method ShowSnackbar(message: string, severity: Option<Severity>)
      modifies this
      ensures Value() == Show(old(Value()), message, severity)
    {
      this.open := true;
      this.message := message;
      this.severity := if severity.Some? then severity.value else Info;
    }

    method CloseSnackbar()
      modifies this`open
      ensures Value() == Close(old(Value()))
    {
      open := false;
    }
  }
}
