/**
 * `PasswordUpdateRequest`: who may send a password change (anyone
 * authenticated), the rules its three inputs must meet, the message each
 * failed rule reports, and the 422 envelope a failure is answered with.
 *
 * Character classes are those of ASCII: a letter outside A-Z/a-z, a digit
 * outside 0-9 or a non-ASCII symbol counts for none of them.
 */
module PasswordUpdate {
  import opened Wrappers
  import opened Json
  import opened Envelope

  /** `authorize()`: every caller that reached the route may make the request. */
  function Authorize(): (allowed: bool)
    ensures allowed
  {
    true
  }

  /**
   * One validation rule. `Password` is the rule object built by
   * `Password::min(..)->mixedCase()->numbers()->symbols()->uncompromised()`.
   */
  datatype Rule =
    | Required
    | IsString
    | Confirmed
    | Password(min: nat, mixedCase: bool, numbers: bool, symbols: bool, uncompromised: bool)

  /** `rules()`: each field with its rules, in declaration order. */
  function Rules(): seq<(string, seq<Rule>)>
  {
    [ ("current_password", [Required, IsString]),
      ("new_password", [Required, IsString, Confirmed, Password(8, true, true, true, true)]) ]
  }

  /**
   * What can go wrong with one field: a rule of the field fails, or one of
   * the checks of the `Password` rule object fails.
   */
  datatype Failure =
    | Missing | NotString | Unconfirmed
    | TooShort(min: nat) | NotMixed | NoSymbol | NoNumber | Leaked

  /**
   * The rule name a failure is reported under, which is also the name its
   * message is looked up by. The `Password` rule object runs its length check
   * as a nested `min` rule and reports its other checks as `password.mixed`,
   * `password.symbols`, `password.numbers` and `password.uncompromised`.
   */
  function RuleKey(f: Failure): string
  {
    match f
    case Missing => "required"
    case NotString => "string"
    case Unconfirmed => "confirmed"
    case TooShort(_) => "min"
    case NotMixed => "password.mixed"
    case NoSymbol => "password.symbols"
    case NoNumber => "password.numbers"
    case Leaked => "password.uncompromised"
  }

  /** `messages()`: the custom text stored under `key`, if any. */
  function CustomMessage(key: string): Option<string>
  {
    if key == "current_password.required" then Some("Current password is required")
    else if key == "new_password.required" then Some("New password is required")
    else if key == "new_password.confirmed" then Some("Password confirmation does not match")
    else if key == "new_password.min" then Some("Password must be at least 8 characters")
    else if key == "new_password.mixed" then Some("Password must contain both uppercase and lowercase letters")
    else if key == "new_password.numbers" then Some("Password must contain at least one number")
    else if key == "new_password.symbols" then Some("Password must contain at least one special character")
    else if key == "new_password.uncompromised" then
      Some("This password has appeared in a data leak. Please choose a different password.")
    else None
  }

  /**
   * The custom message the validator finds for rule `key` of `field`: it
   * tries the keys `field.key`, `key` and `field`, in that order.
   */
  function CustomMessageFor(field: string, key: string): (r: Option<string>)
    ensures CustomMessage(field + "." + key).Some? ==> r == CustomMessage(field + "." + key)
    ensures r.None? <==> CustomMessage(field + "." + key).None? && CustomMessage(key).None? && CustomMessage(field).None?
  {
    if CustomMessage(field + "." + key).Some? then CustomMessage(field + "." + key)
    else if CustomMessage(key).Some? then CustomMessage(key)
    else CustomMessage(field)
  }

  /** The field name as the framework prints it: underscores become spaces. */
  function Humanize(field: string): (r: string)
    ensures |r| == |field|
  {
    seq(|field|, i requires 0 <= i < |field| => if field[i] == '_' then ' ' else field[i])
  }

  /** The framework's own English line for a failure, `:attribute` being the field's printed name. */
  function DefaultMessage(field: string, failure: Failure): string
  {
    var name := Humanize(field);
    match failure
    case Missing => "The " + name + " field is required."
    case NotString => "The " + name + " field must be a string."
    case Unconfirmed => "The " + name + " field confirmation does not match."
    case TooShort(min) => "The " + name + " field must be at least " + Decimal(min) + " characters."
    case NotMixed => "The " + name + " field must contain at least one uppercase and one lowercase letter."
    case NoSymbol => "The " + name + " field must contain at least one symbol."
    case NoNumber => "The " + name + " field must contain at least one number."
    case Leaked => "The given " + name + " has appeared in a data leak. Please choose a different " + name + "."
  }

  /** The message reported for a failure: the custom one found by its rule name, else the default line. */
  function MessageFor(field: string, failure: Failure): string
  {
    match CustomMessageFor(field, RuleKey(failure))
    case Some(m) => m
    case None => DefaultMessage(field, failure)
  }

  predicate IsUpper(c: char) { 'A' <= c <= 'Z' }
  predicate IsLower(c: char) { 'a' <= c <= 'z' }
  predicate IsDigit(c: char) { '0' <= c <= '9' }

  /** Punctuation, symbol or space: printable ASCII that is neither a letter nor a digit. */
  predicate IsSymbol(c: char)
  {
    (' ' <= c <= '/') || (':' <= c <= '@') || ('[' <= c <= '`') || ('{' <= c <= '~')
  }

  predicate HasUpper(s: string) { exists i :: 0 <= i < |s| && IsUpper(s[i]) }
  predicate HasLower(s: string) { exists i :: 0 <= i < |s| && IsLower(s[i]) }
  /** One letter lower-case and the other upper-case, in either order. */
  predicate OppositeCases(a: char, b: char)
  {
    (IsLower(a) && IsUpper(b)) || (IsUpper(a) && IsLower(b))
  }

  /**
   * The `mixedCase` check: a lower-case and an upper-case letter, in either
   * order, with no line feed between them. The rule matches the two letters
   * with a pattern whose `.` does not cross a line feed.
   */
  predicate MixedCase(s: string)
  {
    exists i, j :: 0 <= i < j < |s| && OppositeCases(s[i], s[j]) && '\n' !in s[i..j]
  }

  /** A mixed-case string has an upper- and a lower-case letter. */
  lemma MixedCaseHasBoth(s: string)
    requires MixedCase(s)
    ensures HasUpper(s) && HasLower(s)
  {
    var i, j :| 0 <= i < j < |s| && OppositeCases(s[i], s[j]) && '\n' !in s[i..j];
  }

  /** On a single line, an upper- and a lower-case letter anywhere make the string mixed-case. */
  lemma OneLineMixedCase(s: string)
    requires '\n' !in s && HasUpper(s) && HasLower(s)
    ensures MixedCase(s)
  {
    var u :| 0 <= u < |s| && IsUpper(s[u]);
    var l :| 0 <= l < |s| && IsLower(s[l]);
    var i, j := if u < l then u else l, if u < l then l else u;
    assert forall k :: 0 <= k < j - i ==> s[i..j][k] == s[i + k];
    assert OppositeCases(s[i], s[j]) && '\n' !in s[i..j];
  }

  /** A line feed between the two cases: this string has both, a digit and a symbol, but is not mixed-case. */
  lemma LineFeedSplitsCases()
    ensures var s := "abcdef1!\nABCDEF";
      HasUpper(s) && HasLower(s) && HasDigit(s) && HasSymbol(s) && |s| >= 8 && !MixedCase(s)
  {
    var s := "abcdef1!\nABCDEF";
    assert IsUpper(s[9]) && IsLower(s[0]) && IsDigit(s[6]) && IsSymbol(s[7]);
    assert forall k :: 6 <= k < |s| ==> !IsLower(s[k]);
    assert forall k :: 0 <= k < 9 ==> !IsUpper(s[k]);
    forall i, j | 0 <= i < j < |s| && OppositeCases(s[i], s[j])
      ensures '\n' in s[i..j]
    {
      assert s[i..j][8 - i] == '\n';
    }
  }

  predicate HasDigit(s: string) { exists i :: 0 <= i < |s| && IsDigit(s[i]) }
  predicate HasSymbol(s: string) { exists i :: 0 <= i < |s| && IsSymbol(s[i]) }

  /** The position of a failure in the order the `Password` rule reports them. */
  function Rank(f: Failure): nat
  {
    match f
    case TooShort(_) => 0
    case NotMixed => 1
    case NoSymbol => 2
    case NoNumber => 3
    case Leaked => 4
    case _ => 5
  }

  /** `f` when its check `failed`, else nothing. */
  function Flag(failed: bool, f: Failure): (r: seq<Failure>)
    ensures |r| <= 1 && (forall j :: 0 <= j < |r| ==> r[j] == f)
    ensures |r| == 1 <==> failed
  {
    if failed then [f] else []
  }

  /**
   * The failures of a `Password` rule on a string: the nested `min` rule,
   * then the case, symbol and digit checks; the breach lookup (whose answer
   * is `breached`) is consulted only when all of those passed.
   */
  function PasswordFailures(s: string, min: nat, mixedCase: bool, numbers: bool, symbols: bool,
                            uncompromised: bool, breached: bool): (r: seq<Failure>)
    ensures r == [] <==>
      |s| >= min && (mixedCase ==> MixedCase(s)) && (numbers ==> HasDigit(s))
      && (symbols ==> HasSymbol(s)) && !(uncompromised && breached)
  {
    var strength :=
      Flag(|s| < min, TooShort(min))
      + Flag(mixedCase && !MixedCase(s), NotMixed)
      + Flag(symbols && !HasSymbol(s), NoSymbol)
      + Flag(numbers && !HasDigit(s), NoNumber);
    if strength != [] then strength
    else if uncompromised && breached then [Leaked]
    else []
  }

  /** Four checks' flags, concatenated, hold each failure exactly when its check failed, and never the breach. */
  lemma FourFlags(a: bool, b: bool, c: bool, d: bool, min: nat)
    ensures var st := Flag(a, TooShort(min)) + Flag(b, NotMixed) + Flag(c, NoSymbol) + Flag(d, NoNumber);
      && (TooShort(min) in st <==> a) && (NotMixed in st <==> b)
      && (NoSymbol in st <==> c) && (NoNumber in st <==> d)
      && Leaked !in st
  {
  }

  /** A password whose two cases sit on different lines is refused for its case alone. */
  lemma LineFeedPasswordFailures(breached: bool)
    ensures PasswordFailures("abcdef1!\nABCDEF", 8, true, true, true, true, breached) == [NotMixed]
  {
    LineFeedSplitsCases();
  }

  /**
   * Each check of the `Password` rule is reported exactly when it fails, and
   * the breach only once the others pass.
   */
  lemma PasswordFailuresReported(s: string, min: nat, mixedCase: bool, numbers: bool, symbols: bool,
                                 uncompromised: bool, breached: bool)
    ensures var r := PasswordFailures(s, min, mixedCase, numbers, symbols, uncompromised, breached);
      && (TooShort(min) in r <==> |s| < min)
      && (NotMixed in r <==> mixedCase && !MixedCase(s))
      && (NoSymbol in r <==> symbols && !HasSymbol(s))
      && (NoNumber in r <==> numbers && !HasDigit(s))
      && (Leaked in r <==>
            |s| >= min && (mixedCase ==> MixedCase(s)) && (numbers ==> HasDigit(s))
            && (symbols ==> HasSymbol(s)) && uncompromised && breached)
  {
    var a, b := |s| < min, mixedCase && !MixedCase(s);
    var c, d := symbols && !HasSymbol(s), numbers && !HasDigit(s);
    FourFlags(a, b, c, d, min);
  }

  /** The failures are listed in strictly increasing `Rank`. */
  predicate Ranked(r: seq<Failure>)
  {
    forall i, j :: 0 <= i < j < |r| ==> Rank(r[i]) < Rank(r[j])
  }

  /** Read from the back, ranks strictly decrease and start below `n`: the list ascends and stays below `n`. */
  predicate RankedBelow(r: seq<Failure>, n: nat)
  {
    r == [] || (Rank(r[|r| - 1]) < n && RankedBelow(r[..|r| - 1], Rank(r[|r| - 1])))
  }

  /** A list ranked below `n` is ranked below any larger bound. */
  lemma {:induction false} RankedBelowWeaken(r: seq<Failure>, n: nat, m: nat)
    requires RankedBelow(r, n) && n <= m
    ensures RankedBelow(r, m)
  {
  }

  /** Appending at most one failure of rank `n` to a list ranked below `n` keeps it ranked, now below `m > n`. */
  lemma RankedAppend(r: seq<Failure>, t: seq<Failure>, n: nat, m: nat)
    requires RankedBelow(r, n) && n < m
    requires |t| <= 1 && forall j :: 0 <= j < |t| ==> Rank(t[j]) == n
    ensures RankedBelow(r + t, m)
  {
    if t == [] {
      assert r + t == r;
      RankedBelowWeaken(r, n, m);
    } else {
      assert (r + t)[..|r|] == r;
    }
  }

  /** A list ranked below `n` has strictly increasing ranks, all below `n`. */
  lemma {:induction false} RankedBelowIsRanked(r: seq<Failure>, n: nat)
    requires RankedBelow(r, n)
    ensures Ranked(r) && forall i :: 0 <= i < |r| ==> Rank(r[i]) < n
  {
    if r != [] {
      var init := r[..|r| - 1];
      RankedBelowIsRanked(init, Rank(r[|r| - 1]));
      assert forall i :: 0 <= i < |init| ==> r[i] == init[i];
    }
  }

  /** Four lists of at most one failure each, of ranks 0, 1, 2 and 3, concatenate to a ranked list. */
  lemma FourRanked(a: seq<Failure>, b: seq<Failure>, c: seq<Failure>, d: seq<Failure>)
    requires |a| <= 1 && forall j :: 0 <= j < |a| ==> Rank(a[j]) == 0
    requires |b| <= 1 && forall j :: 0 <= j < |b| ==> Rank(b[j]) == 1
    requires |c| <= 1 && forall j :: 0 <= j < |c| ==> Rank(c[j]) == 2
    requires |d| <= 1 && forall j :: 0 <= j < |d| ==> Rank(d[j]) == 3
    ensures RankedBelow(a + b + c + d, 4)
  {
    RankedAppend([], a, 0, 1);
    assert [] + a == a;
    RankedAppend(a, b, 1, 2);
    RankedAppend(a + b, c, 2, 3);
    RankedAppend(a + b + c, d, 3, 4);
  }

  /** The rule's result, the strength failures or else the breach, is ranked when the strength failures are. */
  lemma StrengthThenBreachRanked(strength: seq<Failure>, leaked: bool)
    requires RankedBelow(strength, 4)
    ensures Ranked(if strength != [] then strength else if leaked then [Leaked] else [])
  {
    RankedBelowIsRanked(strength, 4);
  }

  /** The `Password` rule reports in its own order: length, case, symbols, digits, breach. */
  lemma PasswordFailuresRanked(s: string, min: nat, mixedCase: bool, numbers: bool, symbols: bool,
                               uncompromised: bool, breached: bool)
    ensures Ranked(PasswordFailures(s, min, mixedCase, numbers, symbols, uncompromised, breached))
  {
    var a, b := Flag(|s| < min, TooShort(min)), Flag(mixedCase && !MixedCase(s), NotMixed);
    var c, d := Flag(symbols && !HasSymbol(s), NoSymbol), Flag(numbers && !HasDigit(s), NoNumber);
    FourRanked(a, b, c, d);
    StrengthThenBreachRanked(a + b + c + d, uncompromised && breached);
  }

  /**
   * The size the `min` rule measures on a value that is not a string: the
   * number of elements of an array, else the length of the string PHP
   * converts the value to.
   */
  function ValueSize(v: Json): nat
  {
    match v
    case JNull => 0
    case JBool(b) => if b then 1 else 0
    case JInt(n) => if n < 0 then 1 + |Decimal(-n)| else |Decimal(n)|
    case JStr(s) => |s|
    case JArr(items) => |items|
    case JObj(fields) => |fields|
  }

  /**
   * The failures of one rule on a present, filled value `v` of `field`. On a
   * value that is not a string the `Password` rule's nested `string` rule
   * fails too, but its message is the one this field's own `string` rule has
   * already put in the bag, which keeps each message once; its nested `min`
   * rule measures the value by `ValueSize`, and its other checks are skipped.
   */
  function RuleFailures(rule: Rule, field: string, v: Json, body: Json, breached: bool): seq<Failure>
  {
    match rule
    case Required => []
    case IsString => if v.JStr? then [] else [NotString]
    case Confirmed => if Input(body, field + "_confirmation") == Some(v) then [] else [Unconfirmed]
    case Password(min, mixedCase, numbers, symbols, uncompromised) =>
      if v.JStr? then PasswordFailures(v.s, min, mixedCase, numbers, symbols, uncompromised, breached)
      else if ValueSize(v) < min then [TooShort(min)]
      else []
  }

  function RulesFailures(rules: seq<Rule>, field: string, v: Json, body: Json, breached: bool): seq<Failure>
  {
    if rules == [] then []
    else RuleFailures(rules[0], field, v, body, breached) + RulesFailures(rules[1..], field, v, body, breached)
  }

  /**
   * The failures of one field: a missing or empty value reports `required`
   * alone (validation of that field stops there); otherwise every other rule
   * runs, in order.
   */
  function FieldFailures(field: string, rules: seq<Rule>, body: Json, breached: bool): seq<Failure>
  {
    var v := Input(body, field);
    if !Present(v) then [Missing]
    else RulesFailures(rules, field, v.value, body, breached)
  }

  function Messages(field: string, failures: seq<Failure>): (r: seq<string>)
    ensures |r| == |failures|
  {
    seq(|failures|, i requires 0 <= i < |failures| => MessageFor(field, failures[i]))
  }

  /**
   * The validator's error bag: each failing field with its failures, in field
   * order. Its messages are rendered by `ErrorsFor` and `BagJson`.
   */
  function ErrorBag(rules: seq<(string, seq<Rule>)>, body: Json, breached: bool): seq<(string, seq<Failure>)>
  {
    if rules == [] then []
    else
      var failures := FieldFailures(rules[0].0, rules[0].1, body, breached);
      (if failures == [] then [] else [(rules[0].0, failures)])
      + ErrorBag(rules[1..], body, breached)
  }

  function Validate(body: Json, breached: bool): seq<(string, seq<Failure>)>
  {
    ErrorBag(Rules(), body, breached)
  }

  /** The failures the bag holds for `field` (none when the field passed). */
  function FailuresFor(bag: seq<(string, seq<Failure>)>, field: string): seq<Failure>
  {
    if bag == [] then []
    else if bag[0].0 == field then bag[0].1
    else FailuresFor(bag[1..], field)
  }

  /** The messages a client reads under `field`. */
  function ErrorsFor(bag: seq<(string, seq<Failure>)>, field: string): seq<string>
  {
    Messages(field, FailuresFor(bag, field))
  }

  /** The bag as the JSON object `$validator->errors()` encodes to: each field with its messages. */
  function BagJson(bag: seq<(string, seq<Failure>)>): Json
  {
    JObj(seq(|bag|, i requires 0 <= i < |bag| => (bag[i].0, MessagesJson(Messages(bag[i].0, bag[i].1)))))
  }

  /** A field's messages as the JSON array of strings the bag encodes them to. */
  function MessagesJson(ms: seq<string>): Json
  {
    JArr(seq(|ms|, k requires 0 <= k < |ms| => JStr(ms[k])))
  }

  /** Each field appears at most once in the bag. */
  predicate DistinctFields(bag: seq<(string, seq<Failure>)>)
  {
    forall i, j :: 0 <= i < j < |bag| ==> bag[i].0 != bag[j].0
  }

  /** In a bag without repeated fields, the failures found for an entry's field are that entry's. */
  lemma {:induction false} FailuresAt(bag: seq<(string, seq<Failure>)>, i: nat)
    requires DistinctFields(bag) && i < |bag|
    ensures FailuresFor(bag, bag[i].0) == bag[i].1
  {
    if i > 0 {
      assert DistinctFields(bag[1..]) by {
        forall a, b | 0 <= a < b < |bag| - 1 ensures bag[1..][a].0 != bag[1..][b].0 {
          assert bag[1..][a] == bag[a + 1] && bag[1..][b] == bag[b + 1];
        }
      }
      FailuresAt(bag[1..], i - 1);
      assert bag[1..][i - 1] == bag[i];
    }
  }

  /** Failures found for a field come from an entry of the bag named by that field. */
  lemma {:induction false} FailuresEntry(bag: seq<(string, seq<Failure>)>, field: string)
    requires FailuresFor(bag, field) != []
    ensures exists i :: 0 <= i < |bag| && bag[i].0 == field
  {
    if bag[0].0 != field {
      FailuresEntry(bag[1..], field);
      var i :| 0 <= i < |bag[1..]| && bag[1..][i].0 == field;
      assert bag[i + 1].0 == field;
    }
  }

  /** In an object without repeated keys, looking up an entry's key finds that entry's value. */
  lemma {:induction false} GetUnique(fields: seq<(string, Json)>, i: nat)
    requires i < |fields| && forall a, b :: 0 <= a < b < |fields| ==> fields[a].0 != fields[b].0
    ensures Get(fields, fields[i].0) == Some(fields[i].1)
  {
    if i < |fields| - 1 {
      var init := fields[..|fields| - 1];
      assert init[i] == fields[i];
      GetUnique(init, i);
    }
  }

  /** The JSON bag holds, under each field that failed, the array of that field's messages. */
  lemma BagJsonShowsErrors(bag: seq<(string, seq<Failure>)>, field: string)
    requires DistinctFields(bag) && FailuresFor(bag, field) != []
    ensures Input(BagJson(bag), field) == Some(MessagesJson(ErrorsFor(bag, field)))
  {
    FailuresEntry(bag, field);
    var i :| 0 <= i < |bag| && bag[i].0 == field;
    FailuresAt(bag, i);
    var fields := BagJson(bag).fields;
    assert forall a :: 0 <= a < |fields| ==> fields[a].0 == bag[a].0;
    GetUnique(fields, i);
  }

  /** `failedValidation`: the 422 envelope that carries the error bag. */
  function FailedValidation(errors: Json): (r: Response)
    ensures r == ErrorRes(422, "Validation failed", errors)
    ensures r.status == 422 && Read(r.body) == Some(Envelope(false, 422, "Validation failed", Errors(errors)))
  {
    Response(422, JObj([("success", JBool(false)), ("status_code", JInt(422)),
                        ("message", JStr("Validation failed")), ("errors", errors)]))
  }

  datatype Verdict = Passed | Rejected(response: Response)

  /**
   * The request's fate before the controller runs: it passes exactly when it
   * meets the policy, and is otherwise answered with HTTP 422 and the
   * failure envelope whose `errors` are the (non-empty) error bag.
   */
  function Evaluate(body: Json, breached: bool): (v: Verdict)
    ensures v.Passed? <==> Acceptable(body, breached)
    ensures v.Rejected? ==> v.response.status == 422 && Validate(body, breached) != []
    ensures v.Rejected? ==>
      Read(v.response.body) == Some(Envelope(false, 422, "Validation failed", Errors(BagJson(Validate(body, breached)))))
  {
    ValidationIsPolicy(body, breached);
    var bag := Validate(body, breached);
    if bag == [] then Passed else Rejected(FailedValidation(BagJson(bag)))
  }

  /** The password policy, stated directly on the three inputs. */
  predicate Acceptable(body: Json, breached: bool)
  {
    && Present(Input(body, "current_password")) && Input(body, "current_password").value.JStr?
    && Present(Input(body, "new_password")) && Input(body, "new_password").value.JStr?
    && var p := Input(body, "new_password").value.s;
       && Input(body, "new_password_confirmation") == Some(JStr(p))
       && |p| >= 8 && MixedCase(p) && HasDigit(p) && HasSymbol(p)
       && !breached
  }

  /** A field's rules report nothing exactly when each of them reports nothing. */
  lemma {:induction false} RulesFailuresEmpty(rules: seq<Rule>, field: string, v: Json, body: Json, breached: bool)
    ensures RulesFailures(rules, field, v, body, breached) == [] <==>
      forall k :: 0 <= k < |rules| ==> RuleFailures(rules[k], field, v, body, breached) == []
  {
    if rules != [] {
      RulesFailuresEmpty(rules[1..], field, v, body, breached);
      assert forall k :: 1 <= k < |rules| ==> rules[k] == rules[1..][k - 1];
    }
  }

  lemma CurrentPasswordFailures(body: Json, breached: bool)
    ensures FieldFailures("current_password", Rules()[0].1, body, breached) == [] <==>
      Present(Input(body, "current_password")) && Input(body, "current_password").value.JStr?
  {
    var rules := Rules()[0].1;
    var v := Input(body, "current_password");
    if Present(v) {
      RulesFailuresEmpty(rules, "current_password", v.value, body, breached);
      assert RuleFailures(rules[1], "current_password", v.value, body, breached) == [] <==> v.value.JStr?;
    }
  }

  lemma NewPasswordFailures(body: Json, breached: bool)
    ensures FieldFailures("new_password", Rules()[1].1, body, breached) == [] <==>
      && Present(Input(body, "new_password")) && Input(body, "new_password").value.JStr?
      && var p := Input(body, "new_password").value.s;
         && Input(body, "new_password_confirmation") == Some(JStr(p))
         && |p| >= 8 && MixedCase(p) && HasDigit(p) && HasSymbol(p) && !breached
  {
    var v := Input(body, "new_password");
    if Present(v) {
      NewPasswordRules(v.value, body, breached);
      assert "new_password" + "_confirmation" == "new_password_confirmation";
      var a := RuleFailures(IsString, "new_password", v.value, body, breached);
      var b := RuleFailures(Confirmed, "new_password", v.value, body, breached);
      var c := RuleFailures(Password(8, true, true, true, true), "new_password", v.value, body, breached);
      assert a + b + c == [] <==> a == [] && b == [] && c == [];
    }
  }

  /** A request passes validation exactly when it meets the policy. */
  lemma ValidationIsPolicy(body: Json, breached: bool)
    ensures Validate(body, breached) == [] <==> Acceptable(body, breached)
  {
    CurrentPasswordFailures(body, breached);
    NewPasswordFailures(body, breached);
    var rules := Rules();
    var f0 := FieldFailures(rules[0].0, rules[0].1, body, breached);
    var f1 := FieldFailures(rules[1].0, rules[1].1, body, breached);
    assert rules[1..][1..] == [];
    assert ErrorBag(rules[1..], body, breached)
      == (if f1 == [] then [] else [(rules[1].0, f1)]) + ErrorBag(rules[1..][1..], body, breached);
    assert Validate(body, breached) == [] <==> f0 == [] && f1 == [];
  }

  /** A bag of two differently named fields holds each field's failures under its name. */
  lemma TwoFieldBag(n0: string, f0: seq<Failure>, n1: string, f1: seq<Failure>)
    requires n0 != n1
    ensures var bag := (if f0 == [] then [] else [(n0, f0)]) + (if f1 == [] then [] else [(n1, f1)]);
      FailuresFor(bag, n0) == f0 && FailuresFor(bag, n1) == f1
  {
    var t := (if f1 == [] then [] else [(n1, f1)]);
    assert FailuresFor(t, n0) == [];
    if f0 != [] {
      var bag := [(n0, f0)] + t;
      assert bag[1..] == t;
    }
  }

  /** The bag holds, for each field, exactly that field's failures. */
  lemma BagPerField(body: Json, breached: bool)
    ensures FailuresFor(Validate(body, breached), "current_password")
      == FieldFailures("current_password", Rules()[0].1, body, breached)
    ensures FailuresFor(Validate(body, breached), "new_password")
      == FieldFailures("new_password", Rules()[1].1, body, breached)
  {
    ValidateShape(body, breached);
    TwoFieldBag("current_password", FieldFailures("current_password", Rules()[0].1, body, breached),
                "new_password", FieldFailures("new_password", Rules()[1].1, body, breached));
  }

  /** The bag: the failures of `current_password`, then those of `new_password`, each entry only when it has some. */
  lemma ValidateShape(body: Json, breached: bool)
    ensures var f0 := FieldFailures("current_password", Rules()[0].1, body, breached);
      var f1 := FieldFailures("new_password", Rules()[1].1, body, breached);
      Validate(body, breached) ==
        (if f0 == [] then [] else [("current_password", f0)]) + (if f1 == [] then [] else [("new_password", f1)])
  {
    var rules := Rules();
    var f1 := FieldFailures(rules[1].0, rules[1].1, body, breached);
    assert rules[1..][1..] == [];
    assert ErrorBag(rules[1..], body, breached) == (if f1 == [] then [] else [(rules[1].0, f1)]);
  }

  /** A refused request's reply carries, under `errors`, the array of each failing field's messages. */
  lemma ReplyCarriesMessages(body: Json, breached: bool, field: string)
    requires FailuresFor(Validate(body, breached), field) != []
    ensures var v := Evaluate(body, breached);
      && v.Rejected?
      && Input(v.response.body, "errors") == Some(BagJson(Validate(body, breached)))
      && Input(BagJson(Validate(body, breached)), field) == Some(MessagesJson(ErrorsFor(Validate(body, breached), field)))
  {
    var bag := Validate(body, breached);
    assert bag != [];
    ValidateShape(body, breached);
    assert DistinctFields(bag);
    BagJsonShowsErrors(bag, field);
  }

  lemma NewPasswordRules(v: Json, body: Json, breached: bool)
    ensures RulesFailures(Rules()[1].1, "new_password", v, body, breached)
      == RuleFailures(IsString, "new_password", v, body, breached)
       + RuleFailures(Confirmed, "new_password", v, body, breached)
       + RuleFailures(Password(8, true, true, true, true), "new_password", v, body, breached)
  {
    var r0 := Rules()[1].1;
    var r1, r2, r3 := r0[1..], r0[1..][1..], r0[1..][1..][1..];
    assert r1 == [IsString, Confirmed, Password(8, true, true, true, true)];
    assert r2 == [Confirmed, Password(8, true, true, true, true)];
    assert r3 == [Password(8, true, true, true, true)] && r3[1..] == [];
    var a := RuleFailures(IsString, "new_password", v, body, breached);
    var b := RuleFailures(Confirmed, "new_password", v, body, breached);
    var c := RuleFailures(Password(8, true, true, true, true), "new_password", v, body, breached);
    assert RulesFailures(r3, "new_password", v, body, breached) == c + [];
    assert RulesFailures(r2, "new_password", v, body, breached) == b + c;
    assert RulesFailures(r1, "new_password", v, body, breached) == a + (b + c);
    assert RulesFailures(r0, "new_password", v, body, breached) == [] + (a + (b + c));
  }

  /** A missing current password reports `required`; one that is not a string reports `string`. */
  lemma CurrentPasswordMessages(body: Json, breached: bool)
    ensures !Present(Input(body, "current_password")) ==>
      ErrorsFor(Validate(body, breached), "current_password") == [MessageFor("current_password", Missing)]
    ensures Present(Input(body, "current_password")) && !Input(body, "current_password").value.JStr? ==>
      ErrorsFor(Validate(body, breached), "current_password") == [MessageFor("current_password", NotString)]
  {
    BagPerField(body, breached);
    var c := Input(body, "current_password");
    if Present(c) && !c.value.JStr? {
      var rules := Rules()[0].1;
      assert rules[1..][1..] == [];
      assert RulesFailures(rules[1..][1..], "current_password", c.value, body, breached) == [];
      assert RulesFailures(rules[1..], "current_password", c.value, body, breached) == [NotString];
    }
  }

  /** For a string new password the field's failures are those of `confirmed` then those of the `Password` rule. */
  lemma NewPasswordFailureList(body: Json, breached: bool)
    requires Present(Input(body, "new_password")) && Input(body, "new_password").value.JStr?
    ensures FieldFailures("new_password", Rules()[1].1, body, breached)
      == RuleFailures(Confirmed, "new_password", Input(body, "new_password").value, body, breached)
       + PasswordFailures(Input(body, "new_password").value.s, 8, true, true, true, true, breached)
  {
    NewPasswordRules(Input(body, "new_password").value, body, breached);
  }

  /** Every failure the bag holds for a field is rendered as that failure's message among the field's messages. */
  lemma Rendered(bag: seq<(string, seq<Failure>)>, field: string, f: Failure)
    requires f in FailuresFor(bag, field)
    ensures MessageFor(field, f) in ErrorsFor(bag, field)
  {
    var fs := FailuresFor(bag, field);
    var k :| 0 <= k < |fs| && fs[k] == f;
    assert Messages(field, fs)[k] == MessageFor(field, f);
  }

  /**
   * Each broken rule on the new password is in the bag under `new_password`
   * (and so, by `Rendered` and `ReplyCarriesMessages`, its message is in the reply).
   */
  lemma NewPasswordMessages(body: Json, breached: bool)
    ensures !Present(Input(body, "new_password")) ==>
      FailuresFor(Validate(body, breached), "new_password") == [Missing]
    ensures Present(Input(body, "new_password")) && Input(body, "new_password").value.JStr? ==>
      var p := Input(body, "new_password").value.s;
      var fs := FailuresFor(Validate(body, breached), "new_password");
      && (Input(body, "new_password_confirmation") != Some(JStr(p)) ==> Unconfirmed in fs)
      && (|p| < 8 ==> TooShort(8) in fs)
      && (!MixedCase(p) ==> NotMixed in fs)
      && (!HasDigit(p) ==> NoNumber in fs)
      && (!HasSymbol(p) ==> NoSymbol in fs)
      && (|p| >= 8 && MixedCase(p) && HasDigit(p) && HasSymbol(p) && breached ==> Leaked in fs)
    ensures Present(Input(body, "new_password")) && !Input(body, "new_password").value.JStr? ==>
      var fs := FailuresFor(Validate(body, breached), "new_password");
      && NotString in fs
      && (ValueSize(Input(body, "new_password").value) < 8 ==> TooShort(8) in fs)
  {
    BagPerField(body, breached);
    var v := Input(body, "new_password");
    if Present(v) {
      NewPasswordRules(v.value, body, breached);
      if v.value.JStr? {
        var p := v.value.s;
        assert "new_password" + "_confirmation" == "new_password_confirmation";
        PasswordFailuresReported(p, 8, true, true, true, true, breached);
      }
    }
  }

  /** `messages()` supplies the texts a client reads for the two `required` rules. */
  lemma RequiredTexts()
    ensures MessageFor("current_password", Missing) == "Current password is required"
    ensures MessageFor("new_password", Missing) == "New password is required"
  {
  }

  /** `messages()` supplies the texts for `confirmed` and `min` of the new password. */
  lemma ConfirmedAndMinTexts()
    ensures MessageFor("new_password", Unconfirmed) == "Password confirmation does not match"
    ensures MessageFor("new_password", TooShort(8)) == "Password must be at least 8 characters"
  {
    assert "new_password" + "." + "confirmed" == "new_password.confirmed";
    assert "new_password" + "." + "min" == "new_password.min";
  }

  /**
   * The checks the `Password` rule reports as `password.*` find no custom
   * text under `new_password.password.*`, `password.*` or `new_password`, and
   * get the framework's lines, which name the field "new password".
   */
  lemma StrengthTextsAreDefaults()
    ensures MessageFor("new_password", NotMixed) == DefaultMessage("new_password", NotMixed)
    ensures MessageFor("new_password", NoSymbol) == DefaultMessage("new_password", NoSymbol)
    ensures MessageFor("new_password", NoNumber) == DefaultMessage("new_password", NoNumber)
    ensures MessageFor("new_password", Leaked) == DefaultMessage("new_password", Leaked)
    ensures Humanize("new_password") == "new password"
  {
  }

  /** A request whose new password `abcdefgh` (eight lower-case letters) is confirmed. */
  function WeakRequest(): Json
  {
    JObj([("current_password", JStr("secret")), ("new_password", JStr("abcdefgh")),
          ("new_password_confirmation", JStr("abcdefgh"))])
  }

  /** The weak request carries the filled new password `abcdefgh` and the same confirmation. */
  lemma WeakRequestInputs()
    ensures Input(WeakRequest(), "new_password") == Some(JStr("abcdefgh"))
    ensures Present(Input(WeakRequest(), "new_password"))
    ensures Input(WeakRequest(), "new_password_confirmation") == Some(JStr("abcdefgh"))
  {
    var p := "abcdefgh";
    assert !IsTrimmed(p[0]);
    var f := WeakRequest().fields;
    assert f[..2] == [("current_password", JStr("secret")), ("new_password", JStr(p))];
    assert Get(f, "new_password") == Get(f[..2], "new_password");
  }

  /** Eight lower-case letters fail the case, symbol and digit checks, in that order, and nothing else. */
  lemma WeakStrength()
    ensures PasswordFailures("abcdefgh", 8, true, true, true, true, false) == [NotMixed, NoSymbol, NoNumber]
  {
    var p := "abcdefgh";
    assert forall i :: 0 <= i < |p| ==> IsLower(p[i]) && !IsUpper(p[i]) && !IsDigit(p[i]) && !IsSymbol(p[i]);
  }

  /** A filled, confirmed string new password fails exactly the checks of the `Password` rule. */
  lemma ConfirmedPasswordFailures(body: Json, p: string, breached: bool)
    requires Input(body, "new_password") == Some(JStr(p)) && Present(Input(body, "new_password"))
    requires Input(body, "new_password_confirmation") == Some(JStr(p))
    ensures FailuresFor(Validate(body, breached), "new_password")
      == PasswordFailures(p, 8, true, true, true, true, breached)
  {
    assert "new_password" + "_confirmation" == "new_password_confirmation";
    assert RuleFailures(Confirmed, "new_password", JStr(p), body, breached) == [];
    NewPasswordFailureList(body, breached);
    BagPerField(body, breached);
  }

  /** The weak password fails the case, symbol and digit checks, in that order, and nothing else. */
  lemma WeakPasswordFailures()
    ensures FailuresFor(Validate(WeakRequest(), false), "new_password") == [NotMixed, NoSymbol, NoNumber]
  {
    WeakRequestInputs();
    WeakStrength();
    ConfirmedPasswordFailures(WeakRequest(), "abcdefgh", false);
  }

  /** A bag that holds the case, symbol and digit failures for `new_password` shows the framework's lines. */
  lemma StrengthFailuresShown(bag: seq<(string, seq<Failure>)>)
    requires FailuresFor(bag, "new_password") == [NotMixed, NoSymbol, NoNumber]
    ensures ErrorsFor(bag, "new_password") ==
      [DefaultMessage("new_password", NotMixed), DefaultMessage("new_password", NoSymbol),
       DefaultMessage("new_password", NoNumber)]
  {
    StrengthTextsAreDefaults();
    var m := Messages("new_password", [NotMixed, NoSymbol, NoNumber]);
    assert m[0] == DefaultMessage("new_password", NotMixed);
    assert m[1] == DefaultMessage("new_password", NoSymbol);
    assert m[2] == DefaultMessage("new_password", NoNumber);
  }

  /**
   * The weak password is refused with 422, and the reply's
   * `errors.new_password` holds the framework's lines for case, symbols and
   * digits, in that order, although `messages()` has texts for all three.
   */
  lemma WeakPasswordMessages()
    ensures var v := Evaluate(WeakRequest(), false);
      && v.Rejected? && v.response.status == 422
      && Input(v.response.body, "errors").Some?
      && Input(Input(v.response.body, "errors").value, "new_password") ==
           Some(MessagesJson([DefaultMessage("new_password", NotMixed), DefaultMessage("new_password", NoSymbol),
                              DefaultMessage("new_password", NoNumber)]))
  {
    WeakPasswordFailures();
    ReplyCarriesMessages(WeakRequest(), false, "new_password");
    StrengthFailuresShown(Validate(WeakRequest(), false));
  }

  /** The key each text of `messages()` was written for: the check's name without `password.`. */
  function IntendedKey(f: Failure): string
  {
    match f
    case NotMixed => "mixed"
    case NoSymbol => "symbols"
    case NoNumber => "numbers"
    case Leaked => "uncompromised"
    case _ => RuleKey(f)
  }

  /** The message with `messages()` looked up by the keys it was written for. */
  function IntendedMessageFor(field: string, failure: Failure): string
  {
    match CustomMessageFor(field, IntendedKey(failure))
    case Some(m) => m
    case None => DefaultMessage(field, failure)
  }

  /** Outside the `Password` rule's checks the intended lookup is the one in place. */
  lemma IntendedAgreesElsewhere(field: string, f: Failure)
    requires !(f.NotMixed? || f.NoSymbol? || f.NoNumber? || f.Leaked?)
    ensures IntendedMessageFor(field, f) == MessageFor(field, f)
  {
  }

  /** Looked up by the keys they were written for, the texts for case and symbols are the messages rendered. */
  lemma IntendedMixedAndSymbolTexts()
    ensures IntendedMessageFor("new_password", NotMixed) == "Password must contain both uppercase and lowercase letters"
    ensures IntendedMessageFor("new_password", NoSymbol) == "Password must contain at least one special character"
  {
    assert ("new_password" + "." + "symbols")[13] != "new_password.numbers"[13];
  }

  /** Looked up by the key it was written for, the text for digits is the message rendered. */
  lemma IntendedNumberText()
    ensures IntendedMessageFor("new_password", NoNumber) == "Password must contain at least one number"
  {
  }

  /** Looked up by the key it was written for, the text for a leaked password is the message rendered. */
  lemma IntendedLeakText()
    ensures IntendedMessageFor("new_password", Leaked)
      == "This password has appeared in a data leak. Please choose a different password."
  {
  }
}
