/** The request validators of the server's validation middleware. */
module Validator {
  import opened Common
  import opened Text

  /** A request-body value, as far as the checks below tell values apart. */
  datatype JsonValue = Undefined | Null | Str(s: string) | Num(n: int) | Bool(b: bool) | Compound

  /** The members every parsed JSON object inherits from `Object.prototype`. */
  const InheritedNames: set<string> := {
    "constructor", "hasOwnProperty", "isPrototypeOf", "propertyIsEnumerable", "toLocaleString",
    "toString", "valueOf", "__proto__", "__defineGetter__", "__defineSetter__", "__lookupGetter__",
    "__lookupSetter__"}

  /** `data[field]` on a parsed body: the own value if the key is present, else an inherited
      member (a function or the prototype, never missing), else `undefined`. */
  function Lookup(data: map<string, JsonValue>, field: string): JsonValue {
    if field in data then data[field] else if field in InheritedNames then Compound else Undefined
  }

  /** `data[field]` is `undefined`, `null` or `''`. */
  predicate IsMissing(data: map<string, JsonValue>, field: string) {
    var v := Lookup(data, field);
    v == Undefined || v == Null || v == Str("")
  }

  /** A name the body does not have is missing, unless the object inherits it. */
  lemma AbsentFieldMissing(data: map<string, JsonValue>, field: string)
    requires field !in data
    ensures IsMissing(data, field) <==> field !in InheritedNames
  {
  }

  /** The fields of `fields` that are missing from `data`, in the order listed. */
  function MissingFields(fields: seq<string>, data: map<string, JsonValue>): seq<string> {
    Filter(fields, f => IsMissing(data, f))
  }

  /** Listing more fields appends their own missing ones: the report keeps the list's order. */
  lemma MissingFieldsAppend(a: seq<string>, b: seq<string>, data: map<string, JsonValue>)
    ensures MissingFields(a + b, data) == MissingFields(a, data) + MissingFields(b, data)
  {
    FilterAppend(a, b, f => IsMissing(data, f));
  }

  function MissingFieldsMessage(missing: seq<string>): string {
    "Missing required fields: " + Join(missing, ", ")
  }

  /** `validateRequired`: throws a 400 naming every missing field, or passes. */
  method ValidateRequired(fields: seq<string>, data: map<string, JsonValue>) returns (r: Outcome)
    ensures r.Fail? <==> exists f :: f in fields && IsMissing(data, f)
    ensures r.Fail? ==> r.error == ApiError(400, MissingFieldsMessage(MissingFields(fields, data)))
    ensures forall f :: f in MissingFields(fields, data) <==> f in fields && IsMissing(data, f)
  {
    var missing: seq<string> := [];
    for i := 0 to |fields|
      invariant missing == MissingFields(fields[..i], data)
    {
      assert fields[..i + 1][..i] == fields[..i];
      if IsMissing(data, fields[i]) {
        missing := missing + [fields[i]];
      }
    }
    assert fields[..|fields|] == fields;
    if |missing| > 0 {
      assert missing[0] in missing;
      r := Fail(ApiError(400, MissingFieldsMessage(missing)));
    } else {
      r := Pass;
    }
  }

  /** The position of the first `c` in `s`, or `|s|` when there is none. */
  function IndexOf(s: string, c: char): (k: nat)
    ensures k <= |s| && (k < |s| ==> s[k] == c) && c !in s[..k]
  {
    if s == [] then 0
    else if s[0] == c then 0
    else 1 + IndexOf(s[1..], c)
  }

  /** What `/^[^\s@]+@[^\s@]+\.[^\s@]+$/` accepts: one '@' at `k` after a
      non-empty local part, a '.' at `m` with at least one character between
      it and the '@' and at least one after it, and no whitespace anywhere. */
  ghost predicate MatchesEmailPattern(s: string) {
    exists k, m | 0 < k && k + 1 < m < |s| - 1 ::
      && s[k] == '@' && s[m] == '.'
      && NoWhitespace(s)
      && forall i | 0 <= i < |s| :: s[i] == '@' ==> i == k
  }

  /** `validateEmail`. */
  function ValidateEmail(email: string): (ok: bool)
    ensures ok <==> MatchesEmailPattern(email)
  {
    var k := IndexOf(email, '@');
    var ok := NoWhitespace(email) && 0 < k && k + 2 < |email|
      && '@' !in email[k + 1..] && '.' in email[k + 2..|email| - 1];
    if ok then
      var j :| 0 <= j < |email[k + 2..|email| - 1]| && email[k + 2..|email| - 1][j] == '.';
      assert email[k + 2 + j] == '.';
      assert forall i | k < i < |email| :: email[i] == email[k + 1..][i - k - 1];
      true
    else
      false
  }

  predicate IsAngleBracket(c: char) {
    c == '<' || c == '>'
  }

  /** Deletes every '<' and '>'; every other character keeps its number of occurrences. */
  function RemoveAngleBrackets(s: string): (r: string)
    ensures '<' !in r && '>' !in r
    ensures |r| <= |s|
  {
    if s == [] then []
    else
      assert s == [s[0]] + s[1..];
      (if IsAngleBracket(s[0]) then [] else [s[0]]) + RemoveAngleBrackets(s[1..])
  }

  lemma {:induction false} RemoveAngleBracketsCounts(s: string)
    ensures forall c | !IsAngleBracket(c) :: multiset(RemoveAngleBrackets(s))[c] == multiset(s)[c]
  {
    if s != [] {
      RemoveAngleBracketsCounts(s[1..]);
      assert s == [s[0]] + s[1..];
    }
  }

  /** Deletion works piecewise, so the kept characters stay in their order. */
  lemma {:induction false} RemoveAngleBracketsAppend(a: string, b: string)
    ensures RemoveAngleBrackets(a + b) == RemoveAngleBrackets(a) + RemoveAngleBrackets(b)
  {
    if a != [] {
      assert (a + b)[1..] == a[1..] + b;
      RemoveAngleBracketsAppend(a[1..], b);
    } else {
      assert a + b == b;
    }
  }

  /** `sanitizeString`: trim, then delete every angle bracket. */
  function SanitizeString(input: string): (r: string)
    ensures '<' !in r && '>' !in r
    ensures |r| <= |input|
  {
    RemoveAngleBrackets(Trim(input))
  }

  /** Sanitising keeps every character of the trimmed input other than '<' and '>'. */
  lemma SanitizeKeeps(input: string)
    ensures forall c | !IsAngleBracket(c) :: multiset(SanitizeString(input))[c] == multiset(Trim(input))[c]
  {
    RemoveAngleBracketsCounts(Trim(input));
  }

  lemma TrimLeadingSpace(c: char)
    requires !IsWhitespace(c)
    ensures Trim([' ', c]) == [c]
  {
    TrimStartSkip([' ', c]);
    assert [' ', c][1..] == [c];
    TrimNoWhitespaceEnds([c]);
  }

  lemma RemoveAngleBracketsSingle(c: char)
    ensures RemoveAngleBrackets([c]) == if IsAngleBracket(c) then [] else [c]
  {
    assert [c][1..] == [];
  }

  lemma RemoveLeadingBracket(c: char)
    requires !IsAngleBracket(c)
    ensures RemoveAngleBrackets(['<', ' ', c]) == [' ', c]
  {
    RemoveAngleBracketsAppend(['<'], [' ', c]);
    assert ['<', ' ', c] == ['<'] + [' ', c];
    RemoveAngleBracketsAppend([' '], [c]);
    assert [' ', c] == [' '] + [c];
    RemoveAngleBracketsSingle('<');
    RemoveAngleBracketsSingle(' ');
    RemoveAngleBracketsSingle(c);
  }

  /** Deleting brackets after trimming can expose whitespace, so sanitising is not
      idempotent: "< c" sanitises to " c", which sanitises again to "c". */
  lemma SanitizeNotIdempotent(c: char)
    requires !IsWhitespace(c) && !IsAngleBracket(c)
    ensures SanitizeString(['<', ' ', c]) == [' ', c]
    ensures SanitizeString(SanitizeString(['<', ' ', c])) == [c]
  {
    TrimNoWhitespaceEnds(['<', ' ', c]);
    RemoveLeadingBracket(c);
    TrimLeadingSpace(c);
    RemoveAngleBracketsSingle(c);
  }

  /** A JavaScript number as far as `validateId` looks at it. */
  datatype JsNumber = NaN | Finite(value: int)

  /** `Number(s)` for integer literals: surrounding whitespace is ignored. */
  function NumberOf(s: string): JsNumber {
    NumericLiteral(Trim(s))
  }

  /** The value of trimmed numeric text: the blank string is 0, an optional
      sign may precede decimal digits, anything else is NaN. */
  function NumericLiteral(t: string): JsNumber {
    if t == "" then Finite(0)
    else if AllDigits(t) then Finite(ParseDigits(t))
    else if |t| >= 2 && (t[0] == '+' || t[0] == '-') && AllDigits(t[1..]) then
      var v: int := ParseDigits(t[1..]);
      Finite(if t[0] == '-' then -v else v)
    else NaN
  }

  /** `validateId`: rejects a NaN or non-positive id with a 400. */
  function ValidateId(id: string): (r: Outcome)
    ensures r.Fail? ==> r.error == ApiError(400, "Invalid ID parameter")
  {
    var n := NumberOf(id);
    if n.NaN? || n.value <= 0 then Fail(ApiError(400, "Invalid ID parameter")) else Pass
  }

  /** A non-empty digit string is the number its digits denote. */
  lemma NumberOfDigits(s: string)
    requires AllDigits(s) && s != []
    ensures NumberOf(s) == Finite(ParseDigits(s))
  {
    DigitsNoWhitespace(s);
    NumberOfUntrimmed(s);
  }

  /** An id printed from a natural number passes exactly when it is positive. */
  lemma ValidateIdPrinted(n: nat)
    ensures ValidateId(NatToString(n)).Pass? <==> n > 0
  {
    NumberOfDigits(NatToString(n));
    ParseNatToString(n);
  }

  /** A string of digits passes exactly when one of its digits is not '0';
      in particular the empty id is rejected. */
  lemma ValidateIdDigits(s: string)
    requires AllDigits(s)
    ensures ValidateId(s).Pass? <==> exists i | 0 <= i < |s| :: s[i] != '0'
  {
    if s != [] {
      NumberOfDigits(s);
      ParseDigitsZero(s);
    }
  }

  /** A negative or negative-zero literal is rejected. */
  lemma ValidateIdNegative(s: string)
    requires AllDigits(s)
    ensures ValidateId("-" + s).Fail?
  {
    var t := "-" + s;
    NegativeLiteral(s);
    NegativeNoWhitespace(s);
    NumberOfUntrimmed(t);
  }

  /** A minus sign before digits has no whitespace to trim. */
  lemma NegativeNoWhitespace(s: string)
    requires AllDigits(s)
    ensures NoWhitespace("-" + s)
  {
    var t := "-" + s;
    forall i | 0 <= i < |t| ensures !IsWhitespace(t[i]) {
      if i > 0 {
        assert t[i] == s[i - 1];
        DigitNotWhitespace(s[i - 1]);
      }
    }
  }

  /** Text without whitespace is not changed by the trimming `Number()` does first. */
  lemma NumberOfUntrimmed(t: string)
    requires NoWhitespace(t)
    ensures NumberOf(t) == NumericLiteral(t)
  {
    TrimNoWhitespace(t);
  }

  /** A minus sign before digits reads as NaN (no digits) or a value of at most 0. */
  lemma NegativeLiteral(s: string)
    requires AllDigits(s)
    ensures NumericLiteral("-" + s).NaN? || NumericLiteral("-" + s).value <= 0
  {
    var t := "-" + s;
    assert !IsDigit(t[0]) && t[1..] == s;
  }
}
