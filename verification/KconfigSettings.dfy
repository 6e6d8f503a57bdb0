/**
What assignments and resets do to the user's settings.
*/
module KconfigSettings {
  import opened Options
  import opened KconfigModel
  import opened KconfigSemantics
  import opened KconfigValues

  /** The settings, and the items assigned since the flags were last cleared. */
  datatype UserState = UserState(us: Users, touched: set<Id>)

  predicate ValidState(c: Config, s: UserState) {
    ValidUsers(c, s.us)
  }

  /** "n", "m" and "y" stand for 0, 1 and 2. */
  function Normalised(v: UserValue): UserValue {
    if v.UStr? && StrToTri(v.str).Some? then UTri(StrToTri(v.str).value) else v
  }

  function PutValue(us: Users, i: Id, v: Option<UserValue>): Users
    requires i < |us|
  {
    us[i := User(v, us[i].selection)]
  }

  function PutSelection(us: Users, i: Id, s: Option<Id>): Users
    requires i < |us|
  {
    us[i := User(us[i].value, s)]
  }

  /** The value Symbol.set_value() tries to store. */
  function Offered(d: Def, value: UserValue): UserValue {
    if IsBoolTri(d.typ) then Normalised(value) else value
  }

  /** Symbol.set_value() on a defined or undefined symbol */
  function SetSymbol(c: Config, s: UserState, i: Id, value: UserValue): (UserState, bool)
    requires WellFormed(c) && ValidState(c, s) && i < |c.items| && c.items[i].Symbol?
  {
    var d := c.items[i];
    var v := Offered(d, value);
    if s.us[i].value == Some(v) && d.choice.None? then
      (UserState(s.us, s.touched + {i}), true)
    else if !ValidFor(c.lib, d.typ, v) then
      (s, false)
    else if d.choice.Some? && v == UTri(2) then
      assert WellFormedItem(c, i);
      (UserState(PutSelection(PutValue(s.us, i, Some(v)), d.choice.value, Some(i)), s.touched + {i, d.choice.value}), true)
    else
      (UserState(PutValue(s.us, i, Some(v)), s.touched + {i}), true)
  }

  /** Symbol.unset_value() */
  function UnsetSymbol(s: UserState, i: Id): UserState
    requires i < |s.us|
  {
    UserState(PutValue(s.us, i, None), s.touched)
  }

  /** Choice.set_value() */
  function SetChoice(c: Config, s: UserState, i: Id, value: UserValue): (UserState, bool)
    requires ValidState(c, s) && IsChoice(c, i)
  {
    var v := Normalised(value);
    if s.us[i].value == Some(v) then
      (UserState(s.us, s.touched + {i}), true)
    else if !(IsBoolTri(c.items[i].typ) && ValidFor(c.lib, c.items[i].typ, v)) then
      (s, false)
    else
      (UserState(PutValue(s.us, i, Some(v)), s.touched + {i}), true)
  }

  /** Choice.unset_value() */
  function UnsetChoice(s: UserState, i: Id): UserState
    requires i < |s.us|
  {
    UserState(s.us[i := User(None, None)], s.touched)
  }

  /** Only valid settings are ever stored. */
  lemma ChangesKeepValid(c: Config, s: UserState, i: Id, value: UserValue)
    requires WellFormed(c) && ValidState(c, s) && i < |c.items|
    ensures c.items[i].Symbol? ==> ValidState(c, SetSymbol(c, s, i, value).0)
    ensures ValidState(c, UnsetSymbol(s, i))
    ensures IsChoice(c, i) ==> ValidState(c, SetChoice(c, s, i, value).0)
    ensures ValidState(c, UnsetChoice(s, i))
  {
    assert WellFormedItem(c, i);
  }
}
