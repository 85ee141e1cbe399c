/** The conditional UPDATEs of service/user.go on the stored row. */
module UserStore {
  import opened Prelude
  import opened World
  import opened Rows
  import opened Json
  import opened GoSlices
  import opened Recovery

  /** Every hash a statement writes is a bcrypt hash. */
  predicate HashesOnly(stmt: Statement) {
    match stmt
    case Enable(_, _, hashes) => HashTexts(hashes)
    case ReplaceCodes(prev, remaining) => HashTexts(prev) && HashTexts(remaining)
    case _ => true
  }

  lemma RemovalStaysPlain(list: seq<string>, i: nat)
    requires HashTexts(list) && i < |list|
    ensures HashTexts(RemoveAt(list, i))
  {
  }

  /** changedOne: a failing statement counts as no row. */
  function ChangedOne(err: bool, rowsAffected: nat): bool {
    !err && rowsAffected == 1
  }

  class UserStore {
    var password: string
    var totpSecret: string
    var totpEnabled: bool
    var totpLastStep: int
    var recoveryCodes: Option<string> // JSON text, None for NULL

    ghost predicate Valid()
      reads this
    {
      recoveryCodes.Some? ==>
        exists list :: HashTexts(list) && recoveryCodes.value == Marshal(list)
    }

    ghost function View(): Row
      reads this
    {
      Row(password, totpSecret, totpEnabled, totpLastStep,
          if recoveryCodes.None? then None else Some(Unmarshal(recoveryCodes.value)))
    }

    constructor (password: string)
      ensures Valid() && View() == Row(password, "", false, 0, None)
    {
      this.password, totpSecret, totpEnabled, totpLastStep, recoveryCodes := password, "", false, 0, None;
    }

    lemma ListIsPlain()
      requires Valid()
      ensures HashTexts(View().List())
      ensures recoveryCodes.Some? ==> recoveryCodes.value == Marshal(View().List())
    {
      if recoveryCodes.Some? {
        var list :| HashTexts(list) && recoveryCodes.value == Marshal(list);
        UnmarshalUndoesMarshal(list);
      }
    }

    method EnableUserTOTP(secret: string, step: int, hashes: seq<string>, fault: bool) returns (ok: bool)
      requires Valid() && HashTexts(hashes)
      modifies this
      ensures Valid() && View() == Exec(old(View()), Enable(secret, step, hashes), fault)
      ensures ok == Lands(old(View()), Enable(secret, step, hashes), fault)
    {
      var rows := 0;
      if !fault && totpEnabled == false && totpSecret == secret {
        UnmarshalUndoesMarshal(hashes);
        totpEnabled, totpLastStep, recoveryCodes := true, step, Some(Marshal(hashes));
        rows := 1;
      }
      ok := ChangedOne(fault, rows);
    }

    method ClearPendingTOTP(secret: string, fault: bool) returns (ok: bool)
      requires Valid()
      modifies this
      ensures Valid() && View() == Exec(old(View()), ClearPending(secret), fault)
      ensures ok == Lands(old(View()), ClearPending(secret), fault)
    {
      var rows := 0;
      if !fault && totpEnabled == false && totpSecret == secret {
        totpSecret := "";
        rows := 1;
      }
      ok := ChangedOne(fault, rows);
    }

    method SetPendingTOTP(secret: string, fault: bool) returns (ok: bool)
      requires Valid()
      modifies this
      ensures Valid() && View() == Exec(old(View()), SetPending(secret), fault)
      ensures ok == Lands(old(View()), SetPending(secret), fault)
    {
      var rows := 0;
      if !fault && totpEnabled == false {
        totpSecret := secret;
        rows := 1;
      }
      ok := ChangedOne(fault, rows);
    }

    method DisableUserTOTP(secret: string, fault: bool) returns (ok: bool)
      requires Valid()
      modifies this
      ensures Valid() && View() == Exec(old(View()), Disable(secret), fault)
      ensures ok == Lands(old(View()), Disable(secret), fault)
    {
      var rows := 0;
      if !fault && totpEnabled == true && totpSecret == secret {
        totpSecret, totpEnabled, totpLastStep, recoveryCodes := "", false, 0, None;
        rows := 1;
      }
      ok := ChangedOne(fault, rows);
    }

    method ConsumeTOTPStep(step: int, fault: bool) returns (ok: bool)
      requires Valid()
      modifies this
      ensures Valid() && View() == Exec(old(View()), ConsumeStep(step), fault)
      ensures ok == Lands(old(View()), ConsumeStep(step), fault)
    {
      var rows := 0;
      if !fault && totpLastStep < step {
        totpLastStep := step;
        rows := 1;
      }
      ok := ChangedOne(fault, rows);
    }

    method ReplacePasswordHash(current: string, replacement: string, fault: bool) returns (ok: bool)
      requires Valid()
      modifies this
      ensures Valid() && View() == Exec(old(View()), ReplacePassword(current, replacement), fault)
      ensures ok == Lands(old(View()), ReplacePassword(current, replacement), fault)
    {
      var rows := 0;
      if !fault && password == current {
        password := replacement;
        rows := 1;
      }
      ok := ChangedOne(fault, rows);
    }

    method UpdateUserPassword(password: string, fault: bool) returns (err: bool)
      requires Valid()
      modifies this
      ensures Valid() && View() == Exec(old(View()), UpdatePassword(password), fault) && err == fault
    {
      if !fault {
        this.password := password;
      }
      err := fault;
    }

    /** One UPDATE of five columns: all of them, or none. */
    method ResetUserCredentials(password: string, fault: bool) returns (err: bool)
      requires Valid()
      modifies this
      ensures Valid() && View() == Exec(old(View()), Reset(password), fault) && err == fault
    {
      if !fault {
        this.password, totpSecret, totpEnabled, totpLastStep, recoveryCodes := password, "", false, 0, None;
      }
      err := fault;
    }

    /** The write of UseRecoveryCode: the key is the text of the list as read. Comparing texts lands
        exactly when comparing lists would. */
    method ReplaceRecoveryCodes(prev: seq<string>, remaining: seq<string>, fault: bool) returns (ok: bool)
      requires Valid() && HashTexts(prev) && HashTexts(remaining)
      modifies this
      ensures Valid() && View() == Exec(old(View()), ReplaceCodes(prev, remaining), fault)
      ensures ok == Lands(old(View()), ReplaceCodes(prev, remaining), fault)
    {
      ListIsPlain();
      MarshalInjective(View().List(), prev);
      UnmarshalUndoesMarshal(remaining);
      var rows := 0;
      if !fault && recoveryCodes == Some(Marshal(prev)) {
        recoveryCodes := Some(Marshal(remaining));
        rows := 1;
      }
      ok := ChangedOne(fault, rows);
    }

    /** The list the row holds, as a slice of its own. */
    method ReadRecoveryCodes() returns (codes: Slice)
      requires Valid()
      ensures codes.Valid() && fresh(codes.backing) && codes.Contents() == View().List()
    {
      var list := if recoveryCodes.None? then [] else Unmarshal(recoveryCodes.value);
      var backing := new string[|list|](i requires 0 <= i < |list| => list[i]);
      codes := Slice(backing, 0, |list|, |list|);
      assert codes.Contents() == list;
    }

    /** Other requests' statements, run while this one is between two of its own. */
    method Others(stmts: seq<Statement>)
      requires Valid() && forall k :: 0 <= k < |stmts| ==> HashesOnly(stmts[k])
      modifies this
      ensures Valid() && View() == ExecAll(old(View()), stmts)
    {
      var i := 0;
      while i < |stmts|
        invariant i <= |stmts| && Valid()
        invariant ExecAll(View(), stmts[i..]) == ExecAll(old(View()), stmts)
      {
        assert stmts[i..][0] == stmts[i] && stmts[i..][1..] == stmts[i + 1..];
        Run(stmts[i]);
        i := i + 1;
      }
    }

    method Run(stmt: Statement)
      requires Valid() && HashesOnly(stmt)
      modifies this
      ensures Valid() && View() == Exec(old(View()), stmt, false)
    {
      match stmt
      case SetPending(secret) => var _ := SetPendingTOTP(secret, false);
      case Enable(secret, step, hashes) => var _ := EnableUserTOTP(secret, step, hashes, false);
      case ClearPending(secret) => var _ := ClearPendingTOTP(secret, false);
      case Disable(secret) => var _ := DisableUserTOTP(secret, false);
      case ConsumeStep(step) => var _ := ConsumeTOTPStep(step, false);
      case ReplaceCodes(prev, remaining) => var _ := ReplaceRecoveryCodes(prev, remaining, false);
      case ReplacePassword(current, replacement) => var _ := ReplacePasswordHash(current, replacement, false);
      case UpdatePassword(password) => var _ := UpdateUserPassword(password, false);
      case Reset(password) => var _ := ResetUserCredentials(password, false);
    }

    /** The first half of UseRecoveryCode: the list as read, and what is left of it without the code.
        The removal leaves the list that was read alone, so prev is taken from the same slice after it. */
    method RemoveCode(w: World, code: string) returns (prev: seq<string>, remaining: seq<string>, found: bool)
      requires Valid()
      ensures prev == View().List() && HashTexts(prev) && HashTexts(remaining)
      ensures found == FirstMatch(w, prev, code).Some?
      ensures found ==> remaining == RemoveAt(prev, FirstMatch(w, prev, code).value)
    {
      ListIsPlain();
      var codes := ReadRecoveryCodes();
      var rest;
      rest, found := ConsumeRecoveryCode(w, codes, code);
      prev := Elements(codes);
      remaining := Elements(rest);
      if found {
        RemovalStaysPlain(prev, FirstMatch(w, prev, code).value);
      }
    }

    /** UseRecoveryCode: read, remove, write keyed on the list as read, whatever other requests wrote
        in between. */
    method UseRecoveryCode(w: World, code: string, readFault: bool, others: seq<Statement>, fault: bool)
      returns (ok: bool)
      requires Valid() && forall k :: 0 <= k < |others| ==> HashesOnly(others[k])
      modifies this
      ensures Valid()
      ensures var list := old(View()).List();
              var i := FirstMatch(w, list, code);
              if readFault || i.None? then !ok && View() == ExecAll(old(View()), others)
              else var swap := ReplaceCodes(list, RemoveAt(list, i.value));
                   var row := ExecAll(old(View()), others);
                   ok == Lands(row, swap, fault) && View() == Exec(row, swap, fault)
    {
      if readFault {
        Others(others);
        return false;
      }
      var prev, remaining, found := RemoveCode(w, code);
      Others(others);
      if !found {
        return false;
      }
      ok := ReplaceRecoveryCodes(prev, remaining, fault);
    }
  }
}
