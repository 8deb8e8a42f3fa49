/**
 * The JavaScript backend's route schemas: the auth bodies (email shape,
 * password length), the cart quantities, the product bodies with their
 * transforms, and the hand-written order body check.
 */
module RouteValidatorsJs {

  import opened Base
  import opened Text
  import opened JsValues
  import opened ValidateRequestJs

  const INVALID_EMAIL: string := "Invalid email format"
  const SHORT_PASSWORD: string := "Password must be at least 8 characters"
  const MIN_PASSWORD: nat := 8
  const BAD_ADD_QUANTITY: string := "Quantity must be > 0"
  const BAD_UPDATE_QUANTITY: string := "Quantity must be >= 0 (0 removes item)"
  const BAD_PRICE: string := "Must be a positive number"
  const BAD_STOCK: string := "Stock must be >= 0"
  const BAD_IMAGES: string := "Images must be an array of URLs"
  const ADDRESS_REQUIRED: string := "shippingAddress object is required"
  const NOTES_NOT_TEXT: string := "Notes must be a string"

  // ------------------------------------------------------------------ email

  /** Neither whitespace nor `@`: what `[^\s@]` admits. */
  predicate Plain(c: char)
  {
    !IsSpace(c) && c != '@'
  }

  predicate AllPlain(s: string)
  {
    forall k :: 0 <= k < |s| ==> Plain(s[k])
  }

  /**
   * `^[^\s@]+@[^\s@]+\.[^\s@]+$`: a non-empty local part, `@`, a
   * non-empty text, a dot, and a non-empty text, none of them holding
   * whitespace or `@`.
   */
  predicate EmailShape(s: string)
  {
    exists i, j :: 0 < i && i + 1 < j && j + 1 < |s| && s[i] == '@' && s[j] == '.' &&
      AllPlain(s[..i]) && AllPlain(s[i + 1..j]) && AllPlain(s[j + 1..])
  }

  /**
   * The same shape said plainly: no whitespace, exactly one `@`, not at
   * the start, and a dot after it that is neither right after the `@`
   * nor last.
   */
  predicate OneAtDottedDomain(s: string)
  {
    && (forall k :: 0 <= k < |s| ==> !IsSpace(s[k]))
    && exists i :: 0 < i < |s| && s[i] == '@' &&
         (forall k :: 0 <= k < |s| && s[k] == '@' ==> k == i) &&
         exists j :: i + 1 < j < |s| - 1 && s[j] == '.'
  }

  lemma EmailShapeIff(s: string)
    ensures EmailShape(s) <==> OneAtDottedDomain(s)
  {
    if EmailShape(s) {
      ShapedHasOneAt(s);
    }
    if OneAtDottedDomain(s) {
      OneAtIsShaped(s);
    }
  }

  lemma ShapedHasOneAt(s: string)
    requires EmailShape(s)
    ensures OneAtDottedDomain(s)
  {
    var i, j :| 0 < i && i + 1 < j && j + 1 < |s| && s[i] == '@' && s[j] == '.' &&
      AllPlain(s[..i]) && AllPlain(s[i + 1..j]) && AllPlain(s[j + 1..]);
    forall k | 0 <= k < |s|
      ensures !IsSpace(s[k]) && (s[k] == '@' ==> k == i)
    {
      if k < i {
        assert s[..i][k] == s[k];
      } else if i < k < j {
        assert s[i + 1..j][k - i - 1] == s[k];
      } else if j < k {
        assert s[j + 1..][k - j - 1] == s[k];
      }
    }
    assert i + 1 < j < |s| - 1 && s[j] == '.';
  }

  lemma OneAtIsShaped(s: string)
    requires OneAtDottedDomain(s)
    ensures EmailShape(s)
  {
    var i :| 0 < i < |s| && s[i] == '@' && (forall k :: 0 <= k < |s| && s[k] == '@' ==> k == i) &&
      exists j :: i + 1 < j < |s| - 1 && s[j] == '.';
    var j :| i + 1 < j < |s| - 1 && s[j] == '.';
    var local, host, top := s[..i], s[i + 1..j], s[j + 1..];
    assert forall k :: 0 <= k < |local| ==> local[k] == s[k];
    assert forall k :: 0 <= k < |host| ==> host[k] == s[i + 1 + k];
    assert forall k :: 0 <= k < |top| ==> top[k] == s[j + 1 + k];
    assert AllPlain(local) && AllPlain(host) && AllPlain(top);
  }

  // ------------------------------------------------------------------ transforms and checks

  /** `(v) => String(v)`. */
  function AsText(v: JsValue): JsValue { Str(ToStr(v)) }

  /** `(v) => String(v).trim()`. */
  function Trimmed(v: JsValue): JsValue { Str(TrimmedText(v)) }

  /** `(v) => String(v).trim().toLowerCase()`. */
  function EmailText(v: JsValue): JsValue { Str(Lower(TrimmedText(v))) }

  /** `(v) => String(v).trim().toUpperCase()`. */
  function UpperText(v: JsValue): JsValue { Str(Upper(TrimmedText(v))) }

  /** `(v) => Number(v)`. */
  function AsNumber(v: JsValue): JsValue { Num(ToNumber(v)) }

  /** `emailValidator`: the regular expression test on the text of the value. */
  function EmailCheck(v: JsValue): Option<string>
  {
    if EmailShape(ToStr(v)) then None else Some(INVALID_EMAIL)
  }

  function PasswordCheck(v: JsValue): Option<string>
  {
    if |ToStr(v)| >= MIN_PASSWORD then None else Some(SHORT_PASSWORD)
  }

  function TextRule(required: bool, transform: JsValue -> JsValue): Rule
  {
    Rule(required, Some("string"), Some(transform), None)
  }

  function EmailRule(): Rule
  {
    Rule(true, Some("string"), Some(EmailText), Some(EmailCheck))
  }

  function PasswordRule(): Rule
  {
    Rule(true, Some("string"), Some(AsText), Some(PasswordCheck))
  }

  /** Missing (`undefined` or `null`), present text rule outcomes. */
  lemma TextRuleOutcome(required: bool, transform: JsValue -> JsValue, raw: JsValue)
    requires forall v :: transform(v).Str?
    ensures CheckField(TextRule(required, transform), raw) ==
      if raw.Undefined? || raw.Null? then (if required then Reject(REQUIRED) else Omit)
      else Keep(transform(raw))
  {
  }

  /** The email rule keeps the trimmed lower-case text exactly when it has the email shape. */
  lemma EmailRuleOutcome(raw: JsValue)
    ensures CheckField(EmailRule(), raw) ==
      if raw.Undefined? || raw.Null? then Reject(REQUIRED)
      else if EmailShape(Lower(TrimmedText(raw))) then Keep(Str(Lower(TrimmedText(raw))))
      else Reject(INVALID_EMAIL)
  {
  }

  /** The password rule keeps the text exactly when it has at least 8 characters. */
  lemma PasswordRuleOutcome(raw: JsValue)
    ensures CheckField(PasswordRule(), raw) ==
      if raw.Undefined? || raw.Null? then Reject(REQUIRED)
      else if |ToStr(raw)| >= MIN_PASSWORD then Keep(Str(ToStr(raw)))
      else Reject(SHORT_PASSWORD)
  {
  }

  // ------------------------------------------------------------------ auth bodies

  function Signup(): Schema
  {
    [("fullName", TextRule(true, Trimmed)),
     ("email", EmailRule()),
     ("password", PasswordRule()),
     ("phone", TextRule(false, Trimmed))]
  }

  function Login(): Schema
  {
    [("email", EmailRule()), ("password", TextRule(true, AsText))]
  }

  function VerifyEmail(): Schema
  {
    [("email", EmailRule()), ("otp", TextRule(true, Trimmed))]
  }

  function Resend(): Schema
  {
    [("email", EmailRule())]
  }

  function Reset(): Schema
  {
    [("email", EmailRule()), ("otp", TextRule(true, Trimmed)), ("newPassword", PasswordRule())]
  }

  /** Neither `undefined` nor `null`. */
  predicate Present(body: Body, field: string)
  {
    !(Get(body, field).Undefined? || Get(body, field).Null?)
  }

  /** The email as the schemas store it, once the text passes the shape test. */
  predicate EmailAccepted(body: Body)
  {
    Present(body, "email") && EmailShape(Lower(TrimmedText(Get(body, "email"))))
  }

  /** The four signup fields' outcomes, field by field. */
  lemma SignupOutcomes(body: Body)
    ensures DistinctNames(Signup())
    ensures Outcome(Signup(), body, 0) == CheckField(TextRule(true, Trimmed), Get(body, "fullName"))
    ensures Outcome(Signup(), body, 1) == CheckField(EmailRule(), Get(body, "email"))
    ensures Outcome(Signup(), body, 2) == CheckField(PasswordRule(), Get(body, "password"))
    ensures Outcome(Signup(), body, 3) == CheckField(TextRule(false, Trimmed), Get(body, "phone"))
  {
  }

  /** Signup is accepted exactly when the name, a well-formed email and a password of at least 8 characters are present. */
  lemma SignupAccepted(body: Body)
    ensures ValidateRequest(Signup(), body).Continue? <==>
      Present(body, "fullName") && EmailAccepted(body) && Present(body, "password") &&
      |ToStr(Get(body, "password"))| >= MIN_PASSWORD
  {
    SignupOutcomes(body);
    ValidIffNoField(Signup(), body);
    TextRuleOutcome(true, Trimmed, Get(body, "fullName"));
    EmailRuleOutcome(Get(body, "email"));
    PasswordRuleOutcome(Get(body, "password"));
    TextRuleOutcome(false, Trimmed, Get(body, "phone"));
  }

  /**
   * An accepted signup body holds the trimmed name, the trimmed
   * lower-case email, the password as text and, when sent, the trimmed
   * phone, and nothing else.
   */
  lemma SignupBody(body: Body)
    ensures var r := ValidateRequest(Signup(), body);
      r.Continue? ==>
        Get(r.body, "email") == Str(Lower(TrimmedText(Get(body, "email")))) &&
        Get(r.body, "fullName") == Str(TrimmedText(Get(body, "fullName"))) &&
        Get(r.body, "password") == Str(ToStr(Get(body, "password"))) &&
        ("phone" in r.body <==> Present(body, "phone")) &&
        r.body.Keys <= {"fullName", "email", "password", "phone"}
  {
    SignupOutcomes(body);
    ValidIffNoField(Signup(), body);
    SignupKeys(body);
    var v := BuildBodyValidator(Signup(), body);
    if v.Valid? {
      TextRuleOutcome(true, Trimmed, Get(body, "fullName"));
      EmailRuleOutcome(Get(body, "email"));
      PasswordRuleOutcome(Get(body, "password"));
      TextRuleOutcome(false, Trimmed, Get(body, "phone"));
      assert !Outcome(Signup(), body, 0).Reject? && !Outcome(Signup(), body, 1).Reject?;
      assert !Outcome(Signup(), body, 2).Reject?;
    }
  }

  lemma SignupKeys(body: Body)
    ensures var r := BuildBodyValidator(Signup(), body);
      r.Valid? ==> r.body.Keys <= {"fullName", "email", "password", "phone"}
  {
    var r := BuildBodyValidator(Signup(), body);
    if r.Valid? {
      forall f | f in r.body
        ensures f in {"fullName", "email", "password", "phone"}
      {
        var i :| 0 <= i < |Signup()| && Signup()[i].0 == f;
      }
    }
  }

  /** Login has no length rule: any present password passes with a well-formed email. */
  lemma LoginAnyPassword(body: Body)
    ensures ValidateRequest(Login(), body).Continue? <==> EmailAccepted(body) && Present(body, "password")
  {
    ValidIffNoField(Login(), body);
    assert Outcome(Login(), body, 0) == CheckField(EmailRule(), Get(body, "email"));
    EmailRuleOutcome(Get(body, "email"));
    assert Outcome(Login(), body, 1) == CheckField(TextRule(true, AsText), Get(body, "password"));
    TextRuleOutcome(true, AsText, Get(body, "password"));
  }

  /** A password reset needs a well-formed email, an otp of any form, and a new password of at least 8 characters. */
  lemma ResetAccepted(body: Body)
    ensures ValidateRequest(Reset(), body).Continue? <==>
      EmailAccepted(body) && Present(body, "otp") && Present(body, "newPassword") &&
      |ToStr(Get(body, "newPassword"))| >= MIN_PASSWORD
    ensures var r := ValidateRequest(Reset(), body);
      r.Continue? ==> Get(r.body, "otp") == Str(TrimmedText(Get(body, "otp")))
  {
    ValidIffNoField(Reset(), body);
    assert Outcome(Reset(), body, 0) == CheckField(EmailRule(), Get(body, "email"));
    EmailRuleOutcome(Get(body, "email"));
    assert Outcome(Reset(), body, 1) == CheckField(TextRule(true, Trimmed), Get(body, "otp"));
    TextRuleOutcome(true, Trimmed, Get(body, "otp"));
    assert Outcome(Reset(), body, 2) == CheckField(PasswordRule(), Get(body, "newPassword"));
    PasswordRuleOutcome(Get(body, "newPassword"));
  }

  /** Email verification and resending take the same email rule; the otp is only trimmed. */
  lemma OtpBodiesAccepted(body: Body)
    ensures ValidateRequest(VerifyEmail(), body).Continue? <==> EmailAccepted(body) && Present(body, "otp")
    ensures ValidateRequest(Resend(), body).Continue? <==> EmailAccepted(body)
  {
    ValidIffNoField(VerifyEmail(), body);
    ValidIffNoField(Resend(), body);
    assert Outcome(VerifyEmail(), body, 0) == CheckField(EmailRule(), Get(body, "email"));
    EmailRuleOutcome(Get(body, "email"));
    assert Outcome(VerifyEmail(), body, 1) == CheckField(TextRule(true, Trimmed), Get(body, "otp"));
    TextRuleOutcome(true, Trimmed, Get(body, "otp"));
    assert Outcome(Resend(), body, 0) == CheckField(EmailRule(), Get(body, "email"));
    EmailRuleOutcome(Get(body, "email"));
  }

  // ------------------------------------------------------------------ cart bodies

  function AddQuantityCheck(v: JsValue): Option<string>
  {
    if v.Num? && IsInteger(v.n) && AboveZero(v.n) then None else Some(BAD_ADD_QUANTITY)
  }

  function UpdateQuantityCheck(v: JsValue): Option<string>
  {
    if v.Num? && IsInteger(v.n) && AtLeastZero(v.n) then None else Some(BAD_UPDATE_QUANTITY)
  }

  function AddItem(): Schema
  {
    [("productId", TextRule(true, AsText)),
     ("quantity", Rule(true, Some("number"), Some(AsNumber), Some(AddQuantityCheck)))]
  }

  function UpdateItem(): Schema
  {
    [("quantity", Rule(true, Some("number"), Some(AsNumber), Some(UpdateQuantityCheck)))]
  }

  /**
   * Adding to the cart needs a product id, taken as text, and a quantity
   * that `Number` turns into a whole number above zero; `NaN` and
   * fractions fail. The quantity goes on as that number.
   */
  lemma AddItemAccepted(body: Body)
    ensures ValidateRequest(AddItem(), body).Continue? <==>
      Present(body, "productId") && Present(body, "quantity") &&
      ToNumber(Get(body, "quantity")).Int? && ToNumber(Get(body, "quantity")).i > 0
    ensures var r := ValidateRequest(AddItem(), body);
      r.Continue? ==> Get(r.body, "quantity") == Num(ToNumber(Get(body, "quantity"))) &&
                      Get(r.body, "productId") == Str(ToStr(Get(body, "productId")))
  {
    ValidIffNoField(AddItem(), body);
    assert Outcome(AddItem(), body, 0) == CheckField(TextRule(true, AsText), Get(body, "productId"));
    assert Outcome(AddItem(), body, 1) == CheckField(AddItem()[1].1, Get(body, "quantity"));
  }

  /** Updating a line takes any whole number from zero up; zero is how a line is removed. */
  lemma UpdateItemAccepted(body: Body)
    ensures ValidateRequest(UpdateItem(), body).Continue? <==>
      Present(body, "quantity") && ToNumber(Get(body, "quantity")).Int? && ToNumber(Get(body, "quantity")).i >= 0
  {
    ValidIffNoField(UpdateItem(), body);
    assert Outcome(UpdateItem(), body, 0) == CheckField(UpdateItem()[0].1, Get(body, "quantity"));
  }

  // ------------------------------------------------------------------ product bodies

  /** A URL entry as kept: non-empty trimmed text. */
  predicate CleanEntry(v: JsValue)
  {
    v.Str? && v.s != "" && Trim(v.s) == v.s
  }

  /** The kept entries of an image list: each printed and trimmed, the empty ones dropped. */
  function CleanList(items: seq<JsValue>): (r: seq<JsValue>)
    ensures |r| <= |items|
    ensures forall k :: 0 <= k < |r| ==> CleanEntry(r[k])
  {
    if items == [] then []
    else
      var rest := CleanList(items[1..]);
      var t := TrimmedText(items[0]);
      if t == "" then rest
      else
        TrimmedTextTrimmed(items[0]);
        assert CleanEntry(Str(t));
        [Str(t)] + rest
  }

  /** A list of clean entries is left as it is. */
  lemma {:induction false} CleanListOfClean(items: seq<JsValue>)
    requires forall k :: 0 <= k < |items| ==> CleanEntry(items[k])
    ensures CleanList(items) == items
  {
    if items != [] {
      var x := items[0];
      var rest := items[1..];
      forall k | 0 <= k < |rest| ensures CleanEntry(rest[k]) {
        assert rest[k] == items[k + 1];
      }
      CleanListOfClean(rest);
      CleanListCons(x, rest);
      assert items == [x] + rest;
    }
  }

  lemma CleanListCons(x: JsValue, rest: seq<JsValue>)
    requires CleanEntry(x)
    ensures CleanList([x] + rest) == [x] + CleanList(rest)
  {
    assert ([x] + rest)[1..] == rest;
    assert TrimmedText(x) == x.s;
  }

  /** The `images` transform: a list cleaned, a text a one-entry list unless blank, anything else empty. */
  function ImagesTransform(v: JsValue): (r: JsValue)
    ensures r.Arr?
    ensures !v.Arr? && !v.Str? ==> r == Arr([])
    ensures v.Str? ==> r == (if Trim(v.s) == "" then Arr([]) else Arr([Str(Trim(v.s))]))
  {
    match v
    case Arr(items) => Arr(CleanList(items))
    case Str(s) => if Trim(s) == "" then Arr([]) else Arr([Str(Trim(s))])
    case _ => Arr([])
  }

  /** Sending back the stored images changes nothing: the transform is idempotent. */
  lemma ImagesTransformIdempotent(v: JsValue)
    ensures ImagesTransform(ImagesTransform(v)) == ImagesTransform(v)
  {
    match v
    case Arr(items) => ImagesListIdempotent(items);
    case Str(s) => ImagesTextIdempotent(s);
    case _ =>
  }

  lemma ImagesListIdempotent(items: seq<JsValue>)
    ensures ImagesTransform(ImagesTransform(Arr(items))) == ImagesTransform(Arr(items))
  {
    var kept := CleanList(items);
    CleanListOfClean(kept);
    assert ImagesTransform(Arr(items)) == Arr(kept);
    assert ImagesTransform(Arr(kept)) == Arr(CleanList(kept));
  }

  lemma ImagesTextIdempotent(s: string)
    ensures ImagesTransform(ImagesTransform(Str(s))) == ImagesTransform(Str(s))
  {
    var t := Trim(s);
    if t != "" {
      TrimIdempotent(s);
      assert CleanEntry(Str(t));
      CleanListCons(Str(t), []);
      assert ImagesTransform(Str(s)) == Arr([Str(t)]);
      assert ImagesTransform(Arr([Str(t)])) == Arr(CleanList([Str(t)]));
    }
  }

  function ImagesCheck(v: JsValue): Option<string>
  {
    if v.Arr? || v.Str? then None else Some(BAD_IMAGES)
  }

  /** The `isActive` transform: booleans kept, `"true"` / `"false"` in any case read, anything else by truthiness. */
  function FlagTransform(v: JsValue): (r: JsValue)
    ensures r.Bool?
    ensures v.Bool? ==> r == v
    ensures !v.Bool? && Lower(ToStr(v)) == "true" ==> r == Bool(true)
    ensures !v.Bool? && Lower(ToStr(v)) == "false" ==> r == Bool(false)
    ensures !v.Bool? && Lower(ToStr(v)) != "true" && Lower(ToStr(v)) != "false" ==> r == Bool(IsTruthy(v))
  {
    if v.Bool? then v
    else
      var normalized := Lower(ToStr(v));
      if normalized == "true" then Bool(true)
      else if normalized == "false" then Bool(false)
      else Bool(IsTruthy(v))
  }

  function PriceCheck(v: JsValue): Option<string>
  {
    if v.Num? && AtLeastZero(v.n) then None else Some(BAD_PRICE)
  }

  function StockCheck(v: JsValue): Option<string>
  {
    if v.Num? && IsInteger(v.n) && AtLeastZero(v.n) then None else Some(BAD_STOCK)
  }

  /** The product body schema; `create` makes the name, slug, price and stock required, the update schema nothing. */
  function ProductSchema(create: bool): Schema
  {
    [("name", TextRule(create, Trimmed)),
     ("slug", TextRule(create, EmailText)),
     ("description", TextRule(false, Trimmed)),
     ("price", Rule(create, Some("number"), Some(AsNumber), Some(PriceCheck))),
     ("currency", TextRule(false, UpperText)),
     ("stock", Rule(create, Some("number"), Some(AsNumber), Some(StockCheck))),
     ("category", TextRule(false, Trimmed)),
     ("images", Rule(false, None, Some(ImagesTransform), Some(ImagesCheck))),
     ("isActive", Rule(false, Some("boolean"), Some(FlagTransform), None))]
  }

  /**
   * Whatever the client sends as `images` or `isActive` passes: the
   * transforms always produce a list and a boolean, and an unusable
   * `images` value becomes the empty list.
   */
  lemma ImagesAndFlagNeverFail(create: bool, body: Body)
    ensures !Outcome(ProductSchema(create), body, 7).Reject?
    ensures !Outcome(ProductSchema(create), body, 8).Reject?
    ensures Present(body, "images") ==> Outcome(ProductSchema(create), body, 7) == Keep(ImagesTransform(Get(body, "images")))
  {
    assert ProductSchema(create)[7].1 == Rule(false, None, Some(ImagesTransform), Some(ImagesCheck));
    assert ProductSchema(create)[8].1 == Rule(false, Some("boolean"), Some(FlagTransform), None);
  }

  /** Price and stock: `Number` of the value, at least zero, and for stock a whole number. */
  lemma PriceAndStockRules(create: bool, body: Body)
    requires Present(body, "price") && Present(body, "stock")
    ensures Outcome(ProductSchema(create), body, 3).Keep? <==> AtLeastZero(ToNumber(Get(body, "price")))
    ensures Outcome(ProductSchema(create), body, 5).Keep? <==>
      ToNumber(Get(body, "stock")).Int? && ToNumber(Get(body, "stock")).i >= 0
  {
    assert ProductSchema(create)[3].1 == Rule(create, Some("number"), Some(AsNumber), Some(PriceCheck));
    assert ProductSchema(create)[5].1 == Rule(create, Some("number"), Some(AsNumber), Some(StockCheck));
  }

  /** The update schema accepts an empty body (and passes nothing on); the create schema refuses it. */
  lemma EmptyBodies()
    ensures ValidateRequest(ProductSchema(false), map[]) == Continue(map[])
    ensures ValidateRequest(ProductSchema(true), map[]).Refuse?
  {
    var s := ProductSchema(false);
    assert forall i :: 0 <= i < |s| ==> Outcome(s, map[], i) == Omit;
    EmptyRun(s);
    assert Outcome(ProductSchema(true), map[], 0) == Reject(REQUIRED);
    ValidIffNoField(ProductSchema(true), map[]);
  }

  lemma {:induction false} EmptyRun(s: Schema)
    requires forall i :: 0 <= i < |s| ==> Outcome(s, map[], i) == Omit
    ensures Run(s, map[]) == (map[], map[])
  {
    if s != [] {
      var n := |s| - 1;
      assert Outcome(s, map[], n) == Omit;
      assert forall i :: 0 <= i < n ==> Outcome(s[..n], map[], i) == Outcome(s, map[], i);
      EmptyRun(s[..n]);
    }
  }

  // ------------------------------------------------------------------ order body

  const ADDRESS_FIELDS: seq<string> := ["name", "line1", "city", "state", "postalCode", "country"]

  /** `shippingAddress[field]`; a list has no such keys. */
  function Member(v: JsValue, field: string): JsValue
  {
    if v.Obj? && field in v.fields then v.fields[field] else Undefined
  }

  /** `!value || String(value).trim() === ''`. */
  predicate Blank(v: JsValue)
  {
    !IsTruthy(v) || TrimmedText(v) == ""
  }

  /** The error key of an address field. */
  function AddressKey(field: string): string
  {
    "shippingAddress." + field
  }

  lemma AddressKeyInjective(f: string, g: string)
    ensures AddressKey(f) == AddressKey(g) ==> f == g
  {
    var n := |"shippingAddress."|;
    assert AddressKey(f)[n..] == f && AddressKey(g)[n..] == g;
  }

  /** The errors for the six required address fields, keyed `shippingAddress.<field>`. */
  function AddressErrors(address: JsValue): (r: map<string, string>)
    ensures forall f :: f in ADDRESS_FIELDS ==> (AddressKey(f) in r <==> Blank(Member(address, f)))
    ensures forall k :: k in r ==> r[k] == REQUIRED
    ensures r == map[] <==> forall f :: f in ADDRESS_FIELDS ==> !Blank(Member(address, f))
  {
    AddressKeysInjective();
    map f | f in ADDRESS_FIELDS && Blank(Member(address, f)) :: AddressKey(f) := REQUIRED
  }

  lemma AddressKeysInjective()
    ensures forall f, g :: AddressKey(f) == AddressKey(g) ==> f == g
  {
    forall f, g
      ensures AddressKey(f) == AddressKey(g) ==> f == g
    {
      AddressKeyInjective(f, g);
    }
  }

  /** `value ? String(value).trim() : undefined`. */
  function TrimmedOrUndefined(v: JsValue): JsValue
  {
    if IsTruthy(v) then Str(TrimmedText(v)) else Undefined
  }

  /** The keys the cleaned address always sets. */
  const CLEANED_KEYS: set<string> := {"name", "line1", "line2", "city", "state", "postalCode", "country", "phone"}

  /** The address passed on: the sent keys, with the known ones trimmed and the country upper-cased. */
  function CleanAddress(a: map<string, JsValue>): (r: map<string, JsValue>)
    ensures r.Keys == a.Keys + CLEANED_KEYS
    ensures forall k :: k in a && k !in CLEANED_KEYS ==> r[k] == a[k]
    ensures r["country"] == Str(Upper(TrimmedText(Get(a, "country"))))
    ensures r["name"] == Trimmed(Get(a, "name")) && r["line1"] == Trimmed(Get(a, "line1")) &&
            r["city"] == Trimmed(Get(a, "city")) && r["state"] == Trimmed(Get(a, "state")) &&
            r["postalCode"] == Trimmed(Get(a, "postalCode"))
    ensures r["line2"] == TrimmedOrUndefined(Get(a, "line2")) && r["phone"] == TrimmedOrUndefined(Get(a, "phone"))
  {
    a["name" := Trimmed(Get(a, "name"))]
     ["line1" := Trimmed(Get(a, "line1"))]
     ["line2" := TrimmedOrUndefined(Get(a, "line2"))]
     ["city" := Trimmed(Get(a, "city"))]
     ["state" := Trimmed(Get(a, "state"))]
     ["postalCode" := Trimmed(Get(a, "postalCode"))]
     ["country" := UpperText(Get(a, "country"))]
     ["phone" := TrimmedOrUndefined(Get(a, "phone"))]
  }

  /** `!shippingAddress || typeof shippingAddress !== 'object'`. */
  predicate NoAddressObject(a: JsValue)
  {
    !IsTruthy(a) || TypeOf(a) != "object"
  }

  /** `body.notes && typeof body.notes !== 'string'`. */
  predicate NotesNotText(notes: JsValue)
  {
    IsTruthy(notes) && !notes.Str?
  }

  /**
   * The errors of `createOrderValidator`. A missing or non-object address
   * is one error; otherwise each blank required field is its own error.
   * Truthy notes that are not text are an error too. Nothing else is.
   */
  function OrderErrors(body: Body): (r: map<string, string>)
    ensures var a := Get(body, "shippingAddress");
      NoAddressObject(a) ==> "shippingAddress" in r && r["shippingAddress"] == ADDRESS_REQUIRED
    ensures var a := Get(body, "shippingAddress");
      !NoAddressObject(a) ==> forall f :: f in ADDRESS_FIELDS ==> (AddressKey(f) in r <==> Blank(Member(a, f)))
    ensures NotesNotText(Get(body, "notes")) <==> "notes" in r
    ensures "notes" in r ==> r["notes"] == NOTES_NOT_TEXT
    ensures !NoAddressObject(Get(body, "shippingAddress")) && !NotesNotText(Get(body, "notes")) ==>
      r == AddressErrors(Get(body, "shippingAddress"))
  {
    var a := Get(body, "shippingAddress");
    var addressErrors := if NoAddressObject(a) then map["shippingAddress" := ADDRESS_REQUIRED] else AddressErrors(a);
    assert "notes" !in addressErrors by {
      if !NoAddressObject(a) && "notes" in AddressErrors(a) {
        AddressKeysInjective();
      }
    }
    if NotesNotText(Get(body, "notes")) then addressErrors["notes" := NOTES_NOT_TEXT] else addressErrors
  }

  /**
   * `createOrderValidator`: the errors if there are any; otherwise the
   * body becomes the cleaned address and the trimmed notes, and nothing
   * else, the address then being an object.
   */
  function CreateOrderValidator(body: Body): (r: Verdict)
    ensures r.Invalid? <==> OrderErrors(body) != map[]
    ensures r.Invalid? ==> r.errors == OrderErrors(body)
    ensures r.Valid? ==> Get(body, "shippingAddress").Obj?
    ensures r.Valid? ==>
      r.body == map["shippingAddress" := Obj(CleanAddress(Get(body, "shippingAddress").fields)),
                    "notes" := TrimmedOrUndefined(Get(body, "notes"))]
  {
    var errors := OrderErrors(body);
    if errors != map[] then Invalid(errors)
    else
      var a := Get(body, "shippingAddress");
      assert a.Obj? by {
        assert "name" in ADDRESS_FIELDS;
      }
      Valid(map["shippingAddress" := Obj(CleanAddress(a.fields)), "notes" := TrimmedOrUndefined(Get(body, "notes"))])
  }

  /** An order body passes exactly when the address is an object with all six fields non-blank and any notes are text. */
  lemma OrderBodyAcceptedIff(body: Body)
    ensures CreateOrderValidator(body).Valid? <==>
      var a := Get(body, "shippingAddress");
      a.Obj? && (forall f :: f in ADDRESS_FIELDS ==> !Blank(Member(a, f))) &&
      !NotesNotText(Get(body, "notes"))
  {
    assert "name" in ADDRESS_FIELDS;
  }
}
