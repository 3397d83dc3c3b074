/**
 * Form validators for products and customers. Each field validator returns
 * at most one error, checking its rules in a fixed order; the record
 * validators collect the field errors in field order. The stored list that
 * duplicate detection reads is passed in.
 */
module Validation {
  import opened Wrappers
  import opened Strings
  import opened NumberFormat
  import opened Catalog

  /** The form field an error is reported against. */
  datatype Field = NameField | PriceField | EmailField {
    /** The `field` key the form reads. */
    function Key(): string {
      match this
      case NameField => "name"
      case PriceField => "price"
      case EmailField => "email"
    }
  }

  /** Which rule failed. */
  datatype Message =
    | ProductNameRequired | ProductNameTooShort | ProductNameTaken
    | PriceRequired | PriceNegative | PriceTooHigh | PriceTooPrecise
    | CustomerNameRequired | CustomerNameTooShort
    | EmailRequired | EmailMalformed | EmailTaken
  {
    /** The text shown to the user. */
    function Text(): string {
      match this
      case ProductNameRequired => "El nombre del producto es obligatorio"
      case ProductNameTooShort => "El nombre del producto debe tener al menos 2 caracteres"
      case ProductNameTaken => "Ya existe un producto con este nombre. Por favor, elige un nombre diferente."
      case PriceRequired => "El precio es obligatorio"
      case PriceNegative => "El precio no puede ser negativo"
      case PriceTooHigh => "El precio no puede ser mayor a $10,000"
      case PriceTooPrecise => "El precio no puede tener más de 2 decimales"
      case CustomerNameRequired => "El nombre del cliente es obligatorio"
      case CustomerNameTooShort => "El nombre del cliente debe tener al menos 2 caracteres"
      case EmailRequired => "El email es obligatorio"
      case EmailMalformed => "Por favor, ingresa un email válido"
      case EmailTaken => "Ya existe un cliente con este email. Por favor, usa un email diferente."
    }
  }

  datatype ValidationError = ValidationError(field: Field, message: Message)

  datatype ValidationResult = ValidationResult(isValid: bool, errors: seq<ValidationError>)

  /** The largest accepted price. */
  const MaxPrice: real := 10000.0

  /** The key two names or emails are compared by: lower-cased, then trimmed. */
  function Normalize(s: string): string {
    Trim(ToLower(s))
  }

  /** Another stored product (not the excluded id) has the same normalized name. */
  predicate NameTaken(name: string, excludeId: Option<string>, existing: seq<Product>) {
    exists i :: 0 <= i < |existing| && Normalize(existing[i].name) == Normalize(name) && Some(existing[i].id) != excludeId
  }

  /** Another stored customer (not the excluded id) has the same normalized email. */
  predicate EmailTakenBy(email: string, excludeId: Option<string>, existing: seq<Customer>) {
    exists i :: 0 <= i < |existing| && Normalize(existing[i].email) == Normalize(email) && Some(existing[i].id) != excludeId
  }

  /**
   * `validateProductName`: empty after trimming, then shorter than two
   * UTF-16 code units after trimming, then a duplicate.
   */
  function ValidateProductName(name: string, excludeId: Option<string>, existing: seq<Product>): (r: Option<ValidationError>)
    ensures r.Some? ==> r.value.field == NameField
  {
    if Utf16Length(Trim(name)) == 0 then Some(ValidationError(NameField, ProductNameRequired))
    else if Utf16Length(Trim(name)) < 2 then Some(ValidationError(NameField, ProductNameTooShort))
    else if NameTaken(name, excludeId, existing) then Some(ValidationError(NameField, ProductNameTaken))
    else None
  }

  /** Exactly one rule reports, in the order empty, too short, duplicate. */
  lemma ProductNameRules(name: string, excludeId: Option<string>, existing: seq<Product>)
    ensures var r := ValidateProductName(name, excludeId, existing);
      && (r == Some(ValidationError(NameField, ProductNameRequired)) <==> AllSpace(name))
      && (r == Some(ValidationError(NameField, ProductNameTooShort)) <==> !AllSpace(name) && Utf16Length(Trim(name)) < 2)
      && (r == Some(ValidationError(NameField, ProductNameTaken)) <==> Utf16Length(Trim(name)) >= 2 && NameTaken(name, excludeId, existing))
      && (r.None? <==> Utf16Length(Trim(name)) >= 2 && !NameTaken(name, excludeId, existing))
  {
    TrimEmptyIffAllSpace(name);
  }

  /** Renaming a product to its own name is no duplicate when it is the only one stored under that name. */
  lemma OwnNameAccepted(existing: seq<Product>, k: nat)
    requires k < |existing| && Utf16Length(Trim(existing[k].name)) >= 2
    requires forall j :: 0 <= j < |existing| && Normalize(existing[j].name) == Normalize(existing[k].name) ==>
               existing[j].id == existing[k].id
    ensures ValidateProductName(existing[k].name, Some(existing[k].id), existing) == None
    ensures ValidateProductName(existing[k].name, None, existing) == Some(ValidationError(NameField, ProductNameTaken))
  {
  }

  /** Duplicates are found whatever the case of the name typed. */
  lemma NameTakenIgnoresCase(name: string, excludeId: Option<string>, existing: seq<Product>)
    ensures NameTaken(ToUpper(name), excludeId, existing) <==> NameTaken(name, excludeId, existing)
  {
    var up := ToUpper(name);
    forall k | 0 <= k < |name|
      ensures ToLower(up)[k] == ToLower(name)[k]
    {
      assert LowerChar(UpperChar(name[k])) == LowerChar(name[k]);
    }
    assert ToLower(up) == ToLower(name);
  }

  /**
   * `validateProductPrice`; `None` is a missing or not-a-number price. The
   * more-than-two-decimals test becomes: the price is not a whole number of cents.
   */
  function ValidateProductPrice(price: Option<real>): (r: Option<ValidationError>)
    ensures r.Some? ==> r.value.field == PriceField
  {
    match price
    case None => Some(ValidationError(PriceField, PriceRequired))
    case Some(x) =>
      if x < 0.0 then Some(ValidationError(PriceField, PriceNegative))
      else if x > MaxPrice then Some(ValidationError(PriceField, PriceTooHigh))
      else if !WholeCents(x) then Some(ValidationError(PriceField, PriceTooPrecise))
      else None
  }

  /** Exactly one rule reports, in the order missing, negative, too high, too precise. */
  lemma ProductPriceRules(price: Option<real>)
    ensures var r := ValidateProductPrice(price);
      && (r == Some(ValidationError(PriceField, PriceRequired)) <==> price.None?)
      && (r == Some(ValidationError(PriceField, PriceNegative)) <==> price.Some? && price.value < 0.0)
      && (r == Some(ValidationError(PriceField, PriceTooHigh)) <==> price.Some? && price.value > MaxPrice)
      && (r == Some(ValidationError(PriceField, PriceTooPrecise)) <==> price.Some? && 0.0 <= price.value <= MaxPrice && !WholeCents(price.value))
      && (r.None? <==> price.Some? && 0.0 <= price.value <= MaxPrice && WholeCents(price.value))
  {
  }

  /** The bounds of the accepted range are themselves accepted, and so is any whole number of cents between them. */
  lemma PriceBoundsAccepted()
    ensures ValidateProductPrice(Some(0.0)) == None
    ensures ValidateProductPrice(Some(MaxPrice)) == None
    ensures ValidateProductPrice(Some(19.99)) == None
    ensures ValidateProductPrice(Some(0.001)) == Some(ValidationError(PriceField, PriceTooPrecise))
    ensures ValidateProductPrice(Some(10000.01)) == Some(ValidationError(PriceField, PriceTooHigh))
  {
    assert (19.99 * 100.0).Floor == 1999;
    assert (0.001 * 100.0).Floor == 0;
  }

  /** `validateCustomerName`: empty after trimming, then shorter than two UTF-16 code units after trimming. */
  function ValidateCustomerName(name: string): (r: Option<ValidationError>)
    ensures r.Some? ==> r.value.field == NameField
  {
    if Utf16Length(Trim(name)) == 0 then Some(ValidationError(NameField, CustomerNameRequired))
    else if Utf16Length(Trim(name)) < 2 then Some(ValidationError(NameField, CustomerNameTooShort))
    else None
  }

  /** Exactly one rule reports, in the order empty, too short. */
  lemma CustomerNameRules(name: string)
    ensures var r := ValidateCustomerName(name);
      && (r == Some(ValidationError(NameField, CustomerNameRequired)) <==> AllSpace(name))
      && (r == Some(ValidationError(NameField, CustomerNameTooShort)) <==> !AllSpace(name) && Utf16Length(Trim(name)) < 2)
      && (r.None? <==> Utf16Length(Trim(name)) >= 2)
  {
    TrimEmptyIffAllSpace(name);
  }

  /**
   * `length` counts code units: a name made of one character beyond U+FFFF
   * (U+1F355) is long enough, while a single letter is too short.
   */
  lemma AstralNameAccepted()
    ensures ValidateCustomerName("\U{1F355}") == None
    ensures ValidateProductName("\U{1F355}", None, []) == None
    ensures ValidateCustomerName("a") == Some(ValidationError(NameField, CustomerNameTooShort))
  {
    TrimKeepsTrimmed("\U{1F355}");
    AstralLength();
    TrimKeepsTrimmed("a");
    Utf16LengthBmp("a");
  }

  /** No white space anywhere. */
  predicate NoSpace(s: string) {
    forall k :: 0 <= k < |s| ==> !IsSpace(s[k])
  }

  /**
   * The email format test, read as a scan: no white space, a first '@' that
   * is not the first character, no further '@', and a '.' after it that is
   * neither right after the '@' nor the last character.
   */
  predicate IsEmailFormat(s: string) {
    var at := |Before(s, '@')|;
    && NoSpace(s)
    && 0 < at < |s|
    && '@' !in s[at + 1..]
    && exists j :: at + 1 < j < |s| - 1 && s[j] == '.'
  }

  /** One `[^\s@]+` run of the pattern. */
  ghost predicate Segment(t: string) {
    |t| > 0 && forall k :: 0 <= k < |t| ==> !IsSpace(t[k]) && t[k] != '@'
  }

  /** The pattern `^[^\s@]+@[^\s@]+\.[^\s@]+$`, split at its '@' and its '.'. */
  ghost predicate MatchesEmailPattern(s: string) {
    exists i, j :: 0 <= i < j < |s| && s[i] == '@' && s[j] == '.' &&
      Segment(s[..i]) && Segment(s[i + 1..j]) && Segment(s[j + 1..])
  }

  /** `Before(s, c)` stops at the first occurrence of `c`. */
  lemma {:induction false} BeforeFirst(s: string, c: char, i: nat)
    requires i < |s| && s[i] == c && c !in s[..i]
    ensures |Before(s, c)| == i
  {
    if i > 0 {
      assert s[0] == s[..i][0];
      assert s[1..][..i - 1] == s[..i][1..];
      BeforeFirst(s[1..], c, i - 1);
    }
  }

  /** Every string the scan accepts matches the pattern. */
  lemma EmailFormatMatches(s: string)
    requires IsEmailFormat(s)
    ensures MatchesEmailPattern(s)
  {
    var b := Before(s, '@');
    var at := |b|;
    var j :| at + 1 < j < |s| - 1 && s[j] == '.';
    assert s[..at] == b;
    var rest := s[at + 1..];
    forall k | at + 1 <= k < |s|
      ensures s[k] != '@'
    {
      assert s[k] == rest[k - at - 1];
    }
    assert Segment(s[..at]);
    assert Segment(s[at + 1..j]);
    assert Segment(s[j + 1..]);
  }

  /** Outside its '@', a string split into three runs holds neither white space nor '@'. */
  lemma SegmentsClean(s: string, i: nat, j: nat)
    requires i < j < |s| && s[j] == '.'
    requires Segment(s[..i]) && Segment(s[i + 1..j]) && Segment(s[j + 1..])
    ensures forall k :: 0 <= k < |s| && k != i ==> !IsSpace(s[k]) && s[k] != '@'
  {
    forall k | 0 <= k < |s| && k != i
      ensures !IsSpace(s[k]) && s[k] != '@'
    {
      if k < i {
        assert s[k] == s[..i][k];
      } else if i < k < j {
        assert s[k] == s[i + 1..j][k - i - 1];
      } else if j < k {
        assert s[k] == s[j + 1..][k - j - 1];
      }
    }
  }

  /** Every string the pattern matches is accepted by the scan. */
  lemma PatternMatchesEmailFormat(s: string)
    requires MatchesEmailPattern(s)
    ensures IsEmailFormat(s)
  {
    var i, j :| 0 <= i < j < |s| && s[i] == '@' && s[j] == '.' &&
      Segment(s[..i]) && Segment(s[i + 1..j]) && Segment(s[j + 1..]);
    SegmentsClean(s, i, j);
    assert '@' !in s[..i] by {
      forall k | 0 <= k < i ensures s[..i][k] != '@' {
        assert s[..i][k] == s[k];
      }
    }
    BeforeFirst(s, '@', i);
    var rest := s[i + 1..];
    assert '@' !in rest by {
      forall k | 0 <= k < |rest| ensures rest[k] != '@' {
        assert rest[k] == s[i + 1 + k];
      }
    }
    assert |s[i + 1..j]| > 0 && |s[j + 1..]| > 0;
  }

  /** The scan accepts exactly the strings the pattern matches. */
  lemma EmailFormatMatchesPattern(s: string)
    ensures IsEmailFormat(s) <==> MatchesEmailPattern(s)
  {
    if IsEmailFormat(s) {
      EmailFormatMatches(s);
    }
    if MatchesEmailPattern(s) {
      PatternMatchesEmailFormat(s);
    }
  }

  /** `validateCustomerEmail`: empty after trimming, then malformed after trimming, then a duplicate. */
  function ValidateCustomerEmail(email: string, excludeId: Option<string>, existing: seq<Customer>): (r: Option<ValidationError>)
    ensures r.Some? ==> r.value.field == EmailField
  {
    if |Trim(email)| == 0 then Some(ValidationError(EmailField, EmailRequired))
    else if !IsEmailFormat(Trim(email)) then Some(ValidationError(EmailField, EmailMalformed))
    else if EmailTakenBy(email, excludeId, existing) then Some(ValidationError(EmailField, EmailTaken))
    else None
  }

  /** Exactly one rule reports, in the order empty, malformed, duplicate. */
  lemma CustomerEmailRules(email: string, excludeId: Option<string>, existing: seq<Customer>)
    ensures var r := ValidateCustomerEmail(email, excludeId, existing);
      && (r == Some(ValidationError(EmailField, EmailRequired)) <==> AllSpace(email))
      && (r == Some(ValidationError(EmailField, EmailMalformed)) <==> !AllSpace(email) && !IsEmailFormat(Trim(email)))
      && (r == Some(ValidationError(EmailField, EmailTaken)) <==> IsEmailFormat(Trim(email)) && EmailTakenBy(email, excludeId, existing))
      && (r.None? <==> IsEmailFormat(Trim(email)) && !EmailTakenBy(email, excludeId, existing))
  {
    TrimEmptyIffAllSpace(email);
  }

  /** The error of one field as a list of zero or one errors. */
  function AsList(e: Option<ValidationError>): (r: seq<ValidationError>)
    ensures |r| <= 1 && (r == [] <==> e.None?)
  {
    match e
    case None => []
    case Some(x) => [x]
  }

  /** Two fields' errors collected in order: at most two, and when there are two, in field order. */
  lemma CollectedErrors(a: Option<ValidationError>, b: Option<ValidationError>, fa: Field, fb: Field)
    requires a.Some? ==> a.value.field == fa
    requires b.Some? ==> b.value.field == fb
    ensures var e := AsList(a) + AsList(b);
      && (e == [] <==> a.None? && b.None?)
      && |e| <= 2
      && (|e| == 2 ==> e[0].field == fa && e[1].field == fb)
  {
  }

  /** `validateProduct`: the name error, then the price error, each pushed when present. */
  method ValidateProduct(name: string, price: Option<real>, excludeId: Option<string>, existing: seq<Product>)
    returns (r: ValidationResult)
    ensures r.errors == AsList(ValidateProductName(name, excludeId, existing)) + AsList(ValidateProductPrice(price))
    ensures r.isValid <==> r.errors == []
    ensures |r.errors| <= 2
    ensures |r.errors| == 2 ==> r.errors[0].field == NameField && r.errors[1].field == PriceField
  {
    var errors: seq<ValidationError> := [];
    var nameError := ValidateProductName(name, excludeId, existing);
    if nameError.Some? {
      errors := errors + [nameError.value];
    }
    assert errors == AsList(nameError);
    var priceError := ValidateProductPrice(price);
    if priceError.Some? {
      errors := errors + [priceError.value];
    }
    assert errors == AsList(nameError) + AsList(priceError);
    CollectedErrors(nameError, priceError, NameField, PriceField);
    r := ValidationResult(|errors| == 0, errors);
  }

  /** `validateCustomer`: the name error, then the email error, each pushed when present. */
  method ValidateCustomer(name: string, email: string, excludeId: Option<string>, existing: seq<Customer>)
    returns (r: ValidationResult)
    ensures r.errors == AsList(ValidateCustomerName(name)) + AsList(ValidateCustomerEmail(email, excludeId, existing))
    ensures r.isValid <==> r.errors == []
    ensures |r.errors| <= 2
    ensures |r.errors| == 2 ==> r.errors[0].field == NameField && r.errors[1].field == EmailField
  {
    var errors: seq<ValidationError> := [];
    var nameError := ValidateCustomerName(name);
    if nameError.Some? {
      errors := errors + [nameError.value];
    }
    assert errors == AsList(nameError);
    var emailError := ValidateCustomerEmail(email, excludeId, existing);
    if emailError.Some? {
      errors := errors + [emailError.value];
    }
    assert errors == AsList(nameError) + AsList(emailError);
    CollectedErrors(nameError, emailError, NameField, EmailField);
    r := ValidationResult(|errors| == 0, errors);
  }
}
