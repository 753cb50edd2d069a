/** The two account forms: the savings-destinations page and the settings
    page. Both check a UPI id with the same pattern, both name the bank from
    the id's handle (with different tables), and on success both ask the
    store to add the account with its fields trimmed. */
module Accounts {
  import opened Common
  import opened Text

  /** `[\w.-]`: an ASCII letter, a digit, `_`, `.` or `-`. */
  predicate UpiChar(c: char)
  {
    ('a' <= c <= 'z') || ('A' <= c <= 'Z') || ('0' <= c <= '9') || c == '_' || c == '.' || c == '-'
  }

  predicate AllUpi(s: string)
  {
    forall k :: 0 <= k < |s| ==> UpiChar(s[k])
  }

  /** `/^[\w.-]+@[\w.-]+$/`: a non-empty run, an `@`, a non-empty run. */
  ghost predicate UpiShape(id: string)
  {
    exists i :: 0 < i < |id| - 1 && id[i] == '@' && AllUpi(id[..i]) && AllUpi(id[i + 1..])
  }

  /** The first position of `c` in `s` from `i` on. */
  function IndexOf(s: string, c: char, i: nat): (r: Option<nat>)
    requires i <= |s|
    ensures r.Some? ==> i <= r.value < |s| && s[r.value] == c && forall k :: i <= k < r.value ==> s[k] != c
    ensures r.None? ==> forall k :: i <= k < |s| ==> s[k] != c
    decreases |s| - i
  {
    if i == |s| then None
    else if s[i] == c then Some(i)
    else IndexOf(s, c, i + 1)
  }

  /** `validateUPI(id)`. */
  function ValidateUpi(id: string): bool
  {
    match IndexOf(id, '@', 0)
    case None => false
    case Some(i) => 0 < i < |id| - 1 && AllUpi(id[..i]) && AllUpi(id[i + 1..])
  }

  /** The check accepts exactly the ids the pattern matches. */
  lemma ValidateUpiSpec(id: string)
    ensures ValidateUpi(id) <==> UpiShape(id)
  {
    match IndexOf(id, '@', 0)
    case None =>
    case Some(i) => FirstAtDecides(id, i);
  }

  /** Only the first `@` can be the pattern's separator: a run of `[\w.-]`
      holds no `@`. */
  lemma FirstAtDecides(id: string, i: nat)
    requires i < |id| && id[i] == '@' && forall k :: 0 <= k < i ==> id[k] != '@'
    ensures UpiShape(id) <==> 0 < i < |id| - 1 && AllUpi(id[..i]) && AllUpi(id[i + 1..])
  {
    if UpiShape(id) {
      var j :| 0 < j < |id| - 1 && id[j] == '@' && AllUpi(id[..j]) && AllUpi(id[j + 1..]);
      assert !UpiChar(id[i]);
    }
  }

  /** The pattern accepts exactly an id, an `@` and a handle, both non-empty
      and drawn from `[\w.-]`. */
  lemma ValidateUpiParts(name: string, handle: string)
    ensures ValidateUpi(name + "@" + handle) <==> name != "" && handle != "" && AllUpi(name) && AllUpi(handle)
  {
    var id := name + "@" + handle;
    var i := |name|;
    assert id[..i] == name && id[i] == '@' && id[i + 1..] == handle;
    ValidateUpiSpec(id);
    if ValidateUpi(id) {
      var j :| 0 < j < |id| - 1 && id[j] == '@' && AllUpi(id[..j]) && AllUpi(id[j + 1..]);
      SeparatorUnique(id, i, j);
    }
  }

  /** An `@` outside both runs of `[\w.-]` is the separator itself. */
  lemma SeparatorUnique(id: string, i: nat, j: nat)
    requires i < |id| && j < |id| && id[i] == '@'
    requires AllUpi(id[..j]) && AllUpi(id[j + 1..])
    ensures i == j
  {
  }

  /** An id the pattern accepts has no white space at either end, so
      trimming it changes nothing. */
  lemma ValidUpiIsTrimmed(id: string)
    requires ValidateUpi(id)
    ensures Trim(id) == id
  {
    ValidateUpiSpec(id);
    var i :| 0 < i < |id| - 1 && id[i] == '@' && AllUpi(id[..i]) && AllUpi(id[i + 1..]);
    assert id[..i][0] == id[0];
    assert id[i + 1..][|id| - i - 2] == id[|id| - 1];
    assert !IsSpace(id[0]) && !IsSpace(id[|id| - 1]);
    assert TrimStart(id) == id;
  }

  /** A blank id is refused. */
  lemma BlankUpiInvalid(id: string)
    requires Trim(id) == ""
    ensures !ValidateUpi(id)
  {
    if ValidateUpi(id) {
      ValidUpiIsTrimmed(id);
    }
  }

  /** Splitting gives one piece more than there are separators. */
  lemma {:induction false} SplitLength(s: string, c: char)
    ensures |Split(s, c)| == CountChar(s, c) + 1
  {
    if s != [] {
      SplitLength(s[1..], c);
    }
  }

  /** A character that occurs is counted. */
  lemma {:induction false} OccursCounted(s: string, c: char, i: int)
    requires 0 <= i < |s| && s[i] == c
    ensures CountChar(s, c) >= 1
  {
    if i > 0 {
      OccursCounted(s[1..], c, i - 1);
    }
  }

  /** `upi.split('@')[1].toLowerCase()`: the text between the first `@` and
      the next one, lowercased. */
  function HandleOf(upi: string): string
    requires Includes(upi, "@")
  {
    var i :| OccursAt(upi, "@", i);
    assert upi[i] == "@"[0];
    OccursCounted(upi, '@', i);
    SplitLength(upi, '@');
    ToLower(Split(upi, '@')[1])
  }

  /** The `.name` of `banks[handle]`, where `banks` is a plain object
      literal: a key it does not hold is looked up on `Object.prototype`.
      Of that object's keys only `constructor` and `__proto__` are all
      lower case, so only they can be a lowercased handle: `constructor`
      finds the `Object` function, named "Object", and `__proto__` finds
      `Object.prototype`, whose `.name` is `undefined` (`None`).  Anything
      else falls back to "Linked Bank". */
  function PrototypeName(handle: string, own: Option<string>): Option<string>
  {
    if own.Some? then own
    else if handle == "constructor" then Some("Object")
    else if handle == "__proto__" then None
    else Some("Linked Bank")
  }

  /** The savings-destinations page's table. */
  function ManagerBankName(handle: string): Option<string>
  {
    PrototypeName(handle,
      if handle == "okicic" then Some("ICICI Bank")
      else if handle == "okhdfcbank" then Some("HDFC Bank")
      else if handle == "okaxis" then Some("Axis Bank")
      else if handle == "oksbi" then Some("SBI")
      else if handle == "paytm" then Some("Paytm")
      else if handle == "ybl" then Some("Yes Bank (PhonePe)")
      else if handle == "axl" then Some("Axis Bank (PhonePe)")
      else if handle == "ibl" then Some("ICICI Bank (PhonePe)")
      else None)
  }

  /** The settings page's shorter table. */
  function SettingsBankName(handle: string): Option<string>
  {
    PrototypeName(handle,
      if handle == "okicic" then Some("ICICI Bank")
      else if handle == "okhdfcbank" then Some("HDFC Bank")
      else if handle == "okaxis" then Some("Axis Bank")
      else if handle == "oksbi" then Some("SBI")
      else if handle == "paytm" then Some("Paytm")
      else if handle == "ybl" then Some("PhonePe (Yes)")
      else None)
  }

  /** `getBankInfo(upi).name`, with the page's table. */
  function BankName(upi: string, table: string -> Option<string>): Option<string>
  {
    if !Includes(upi, "@") then Some("Unknown Bank") else table(HandleOf(upi))
  }

  /** The two tables agree on every handle but `ybl`, which they label
      differently, and `axl` and `ibl`, which only the first one knows. */
  lemma BankTablesDiffer(handle: string)
    ensures ManagerBankName(handle) != SettingsBankName(handle) <==> handle in ["ybl", "axl", "ibl"]
    ensures handle in ["axl", "ibl"] ==> SettingsBankName(handle) == Some("Linked Bank")
  {
  }

  /** Without an `@` the bank is unknown; with one, the name comes from the
      table, which never says "Unknown Bank". */
  lemma BankNameSpec(upi: string)
    ensures BankName(upi, ManagerBankName) == Some("Unknown Bank") <==> !Includes(upi, "@")
    ensures BankName(upi, SettingsBankName) == Some("Unknown Bank") <==> !Includes(upi, "@")
  {
  }

  /** A handle missing from both tables shows "Linked Bank", except the two
      lower-case keys of `Object.prototype`: `constructor` shows "Object"
      and `__proto__` shows no name; both are valid UPI handles. */
  lemma PrototypeHandles(handle: string)
    ensures handle !in ["okicic", "okhdfcbank", "okaxis", "oksbi", "paytm", "ybl", "axl", "ibl", "constructor", "__proto__"]
      ==> ManagerBankName(handle) == SettingsBankName(handle) == Some("Linked Bank")
    ensures handle == "constructor" ==> ManagerBankName(handle) == SettingsBankName(handle) == Some("Object")
    ensures handle == "__proto__" ==> ManagerBankName(handle).None? && SettingsBankName(handle).None?
    ensures AllUpi("constructor") && AllUpi("__proto__")
  {
  }

  /** For an id of the form `name@handle` the bank is looked up by the
      lowercased handle. */
  lemma BankOfValidUpi(name: string, handle: string)
    requires name != "" && handle != "" && AllUpi(name) && AllUpi(handle)
    ensures var upi := name + "@" + handle;
      Includes(upi, "@") && HandleOf(upi) == ToLower(handle)
  {
    var upi := name + "@" + handle;
    assert OccursAt(upi, "@", |name|);
    NoAt(name);
    NoAt(handle);
    SplitAtSeparator(name, handle, '@');
    assert upi == name + ['@'] + handle;
    assert Split(upi, '@')[1] == handle;
  }

  /** A text made of two pieces around one separator splits into the two
      pieces. */
  lemma SplitAtSeparator(a: string, b: string, c: char)
    requires CountChar(a, c) == 0 && CountChar(b, c) == 0
    ensures Split(a + [c] + b, c) == [a, b]
  {
    var tail := [c] + b;
    assert a + [c] + b == a + tail;
    SplitPrefix(b, [], c);
    assert b + [] == b;
    assert Split(b, c) == [b + []] + [];
    assert tail[0] == c && tail[1..] == b;
    assert Split(tail, c) == [[]] + [b];
    SplitPrefix(a, tail, c);
    assert Split(a + tail, c) == [a + []] + [b];
    assert a + [] == a;
  }

  lemma {:induction false} NoAt(s: string)
    requires AllUpi(s)
    ensures CountChar(s, '@') == 0
  {
    if s != [] {
      assert UpiChar(s[0]);
      assert AllUpi(s[1..]) by {
        forall k | 0 <= k < |s| - 1 ensures UpiChar(s[1..][k]) {
          assert s[1..][k] == s[k + 1];
        }
      }
      NoAt(s[1..]);
    }
  }

  /** The forms' error messages. */
  const NicknameMissing: string := "Please enter a nickname for this account"
  const DestinationBadUpi: string := "Invalid UPI ID format (e.g., name@bank)"
  const FieldsMissing: string := "All fields are required"
  const SettingsBadUpi: string := "Invalid UPI ID format"

  /** What the form asks the store to add. */
  datatype NewAccount = NewAccount(upiId: string, name: string, isDefault: bool)

  /** The savings-destinations page's add-account form. */
  class DestinationForm {
    var showForm: bool
    var name: string
    var upiId: string
    var isDefault: bool
    var error: string

    constructor()
      ensures !showForm && name == "" && upiId == "" && !isDefault && error == ""
    {
      showForm := false;
      name := "";
      upiId := "";
      isDefault := false;
      error := "";
    }

    /** `handleSubmit`: the nickname is checked first, then the UPI id as
        typed, so an id with spaces around it is refused. */
    method Submit() returns (request: Option<NewAccount>)
      modifies this
      ensures request.Some? <==> Trim(old(name)) != "" && ValidateUpi(old(upiId))
      ensures Trim(old(name)) == "" ==>
        error == NicknameMissing
        && name == old(name) && upiId == old(upiId) && isDefault == old(isDefault) && showForm == old(showForm)
      ensures Trim(old(name)) != "" && !ValidateUpi(old(upiId)) ==>
        error == DestinationBadUpi
        && name == old(name) && upiId == old(upiId) && isDefault == old(isDefault) && showForm == old(showForm)
      ensures request.Some? ==>
        request.value == NewAccount(Trim(old(upiId)), Trim(old(name)), old(isDefault))
        && name == "" && upiId == "" && !isDefault && !showForm && error == ""
    {
      var nickname, id := Trim(name), upiId;
      error := "";
      if nickname == "" {
        error := NicknameMissing;
        return None;
      }
      if !ValidateUpi(id) {
        error := DestinationBadUpi;
        return None;
      }
      request := Some(NewAccount(Trim(id), nickname, isDefault));
      name := "";
      upiId := "";
      isDefault := false;
      showForm := false;
    }
  }

  /** The settings page's add-account form. */
  class SettingsForm {
    var showAddAccount: bool
    var newAccountName: string
    var newAccountUpi: string
    var error: string

    constructor()
      ensures !showAddAccount && newAccountName == "" && newAccountUpi == "" && error == ""
    {
      showAddAccount := false;
      newAccountName := "";
      newAccountUpi := "";
      error := "";
    }

    /** `handleAddAccount`: both fields must be non-blank, then the UPI id as
        typed must match; the account is added without the default flag. */
    method AddAccount() returns (request: Option<NewAccount>)
      modifies this
      ensures request.Some? <==> Trim(old(newAccountName)) != "" && ValidateUpi(old(newAccountUpi))
      ensures Trim(old(newAccountName)) == "" || Trim(old(newAccountUpi)) == "" ==>
        error == FieldsMissing
        && newAccountName == old(newAccountName) && newAccountUpi == old(newAccountUpi)
        && showAddAccount == old(showAddAccount)
      ensures Trim(old(newAccountName)) != "" && Trim(old(newAccountUpi)) != "" && !ValidateUpi(old(newAccountUpi)) ==>
        error == SettingsBadUpi
        && newAccountName == old(newAccountName) && newAccountUpi == old(newAccountUpi)
        && showAddAccount == old(showAddAccount)
      ensures request.Some? ==>
        request.value == NewAccount(Trim(old(newAccountUpi)), Trim(old(newAccountName)), false)
        && newAccountName == "" && newAccountUpi == "" && !showAddAccount && error == ""
    {
      var nickname, id := Trim(newAccountName), newAccountUpi;
      error := "";
      if nickname == "" || Trim(id) == "" {
        error := FieldsMissing;
        if Trim(id) == "" {
          BlankUpiInvalid(id);
        }
        return None;
      }
      if !ValidateUpi(id) {
        error := SettingsBadUpi;
        return None;
      }
      request := Some(NewAccount(Trim(id), nickname, false));
      newAccountName := "";
      newAccountUpi := "";
      showAddAccount := false;
    }
  }
}
