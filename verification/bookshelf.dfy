/**
 The bookshelf app's models (advanced_features_and_security/LibraryProject/bookshelf/
 models.py): the string form of a book and the custom user manager's two factory
 methods, which validate their arguments and fill in the staff and superuser flags
 with `dict.setdefault`.
 */
module Bookshelf {
  import opened Results

  // ---------------------------------------------------------------------------
  // Decimal text of integers, as Python's `str(int)` writes it
  // ---------------------------------------------------------------------------

  predicate AllDigits(s: string) {
    forall i :: 0 <= i < |s| ==> '0' <= s[i] <= '9'
  }

  function DigitChar(d: nat): (c: char)
    requires d < 10
    ensures '0' <= c <= '9'
    ensures c as int - '0' as int == d
  {
    ('0' as int + d) as char
  }

  /** The shortest decimal numeral of `n`: no sign and no leading zero. */
  function NatToDecimal(n: nat): (s: string)
    ensures |s| >= 1 && AllDigits(s)
    ensures s[0] == '0' ==> n == 0
    decreases n
  {
    if n < 10 then [DigitChar(n)] else NatToDecimal(n / 10) + [DigitChar(n % 10)]
  }

  /** The value of a numeral read most-significant digit first. */
  function DecimalValue(s: string): nat
    requires AllDigits(s)
    decreases |s|
  {
    if s == [] then 0 else DecimalValue(s[..|s| - 1]) * 10 + (s[|s| - 1] as int - '0' as int)
  }

  lemma {:induction false} DecimalRoundTrip(n: nat)
    ensures DecimalValue(NatToDecimal(n)) == n
    decreases n
  {
    if n >= 10 {
      var s := NatToDecimal(n / 10);
      var s' := s + [DigitChar(n % 10)];
      assert s'[..|s'| - 1] == s;
      DecimalRoundTrip(n / 10);
    }
  }

  /** `str(i)`: a minus sign for negative numbers, then the decimal numeral. */
  function IntToString(i: int): (s: string)
    ensures |s| >= 1
    ensures s[0] == '-' <==> i < 0
  {
    if i < 0 then "-" + NatToDecimal(-i) else NatToDecimal(i)
  }

  /**
   `int(s)`, agreeing with Python's `int` on the numerals `str` produces: an optional
   minus sign and decimal digits. Other spellings `int` would also take ("+5", " 5",
   "1_000") are refused here; the model only ever reads back what `str` wrote.
   */
  function ParseInt(s: string): Option<int> {
    if |s| >= 2 && s[0] == '-' && AllDigits(s[1..]) then
      var magnitude: int := DecimalValue(s[1..]);
      Some(-magnitude)
    else if |s| >= 1 && AllDigits(s) then Some(DecimalValue(s))
    else None
  }

  lemma IntRoundTrip(i: int)
    ensures ParseInt(IntToString(i)) == Some(i)
  {
    if i < 0 {
      NegativeRoundTrip(i);
    } else {
      DecimalRoundTrip(i);
    }
  }

  lemma NegativeRoundTrip(i: int)
    requires i < 0
    ensures ParseInt(IntToString(i)) == Some(i)
  {
    var n: nat := -i;
    var digits := NatToDecimal(n);
    assert IntToString(i) == "-" + digits;
    ParseSigned(digits);
    DecimalRoundTrip(n);
    assert DecimalValue(digits) == n;
  }

  lemma ParseSigned(digits: string)
    requires |digits| >= 1 && AllDigits(digits)
    ensures ParseInt("-" + digits) == Some(-(DecimalValue(digits) as int))
  {
  }

  // ---------------------------------------------------------------------------
  // Book
  // ---------------------------------------------------------------------------

  datatype Book = Book(title: string, author: string, publicationYear: int)

  /** `Book.__str__`: "<title> by <author> (<year>)". */
  function BookStr(b: Book): (s: string)
    ensures |s| == |b.title| + |b.author| + |IntToString(b.publicationYear)| + 7
    ensures s[..|b.title|] == b.title
    ensures s[|s| - 1] == ')'
  {
    b.title + " by " + b.author + " (" + IntToString(b.publicationYear) + ")"
  }

  /** Knowing the title and author lengths, every field can be read back from the string. */
  lemma BookStrReadBack(b: Book)
    ensures var s := BookStr(b);
      var t := |b.title|;
      var a := |b.author|;
      && s[t..t + 4] == " by "
      && s[t + 4..t + 4 + a] == b.author
      && s[t + 4 + a..t + 6 + a] == " ("
      && ParseInt(s[t + 6 + a..|s| - 1]) == Some(b.publicationYear)
  {
    var y := IntToString(b.publicationYear);
    var s := BookStr(b);
    var t := |b.title|;
    var a := |b.author|;
    assert s == b.title + " by " + b.author + " (" + y + ")";
    assert s[t + 6 + a..|s| - 1] == y;
    IntRoundTrip(b.publicationYear);
  }

  // ---------------------------------------------------------------------------
  // CustomUserManager
  // ---------------------------------------------------------------------------

  /** The Python values a caller may pass as extra keyword arguments. */
  datatype PyValue = PyNone | PyBool(b: bool) | PyInt(i: int) | PyStr(s: string)

  /** `**extra_fields`: keyword name to value. */
  type Fields = map<string, PyValue>

  /**
   What the two factory methods raise. `TypeError` carries the keywords refused: a
   keyword that repeats one of the method's own parameters, or one the user model's
   constructor does not take.
   */
  datatype Raised = ValueError(message: string) | TypeError(keywords: set<string>)

  const EmailRequired: string := "The Email field must be set"
  const SuperuserMustBeStaff: string := "Superuser must be staff"
  const SuperuserMustBeSuperuser: string := "superuser must have superuser set to true"

  const IsStaff: string := "is_staff"
  const IsSuperuser: string := "is_superuser"

  /**
   The parameter names of `create_user` and `create_superuser`. Python binds a keyword
   with one of these names to the parameter, so passing it again inside
   `**extra_fields` raises TypeError before the method body runs.
   */
  const Parameters: set<string> := {"self", "username", "email", "password"}

  /**
   The keywords `CustomUser(...)` accepts: the concrete columns of `AbstractUser` and
   its bases, the two columns `CustomUser` adds (bookshelf/models.py:56-58), and the
   primary-key alias `pk`. The many-to-many fields `groups` and `user_permissions` are
   not among them: the constructor refuses direct assignment to them with TypeError,
   as it does any other unknown keyword.
   */
  const ModelKeywords: set<string> := {
    "id", "pk", "password", "last_login", "is_superuser", "username", "first_name",
    "last_name", "email", "is_staff", "is_active", "date_joined",
    "date_of_birth", "profile_photo"}

  /** The extra keywords that clash with a parameter of the method being called. */
  function BoundTwice(extra: Fields): set<string> {
    extra.Keys * Parameters
  }

  /** The extra keywords the model constructor refuses. */
  function NotModelKeywords(fields: Fields): set<string> {
    fields.Keys - ModelKeywords
  }

  /**
   The user row a successful `create_user` saves. `email` is what `normalize_email`
   returned, and `password` is the argument `set_password` received (hashing is not
   modelled).
   */
  datatype User = User(username: string, email: string, password: Option<string>, fields: Fields)

  /** `dict.setdefault`: the key gets `default` only when it is absent; a present value is never overwritten. */
  function SetDefault(fields: Fields, key: string, default: PyValue): (r: Fields)
    ensures r.Keys == fields.Keys + {key}
    ensures forall k :: k in fields ==> r[k] == fields[k]
    ensures key !in fields ==> r[key] == default
  {
    if key in fields then fields else fields[key := default]
  }

  /** Python's `not email` for a string argument that may be None. */
  predicate Falsy(email: Option<string>) {
    email.None? || email.value == ""
  }

  /**
   `create_user`. A keyword repeating a parameter raises TypeError at the call. Then a
   missing or empty email raises ValueError, and a keyword the model constructor does
   not take raises TypeError; either way nobody is created. Otherwise the user is built
   from the normalised email, the password and the extra fields, with both flags
   defaulting to false and every supplied value kept.
   */
  function CreateUser(username: string, email: Option<string>, password: Option<string>,
                      extra: Fields, normalize: string -> string): (r: Result<User, Raised>)
    ensures r.Success? <==>
      && (forall k :: k in extra ==> k !in Parameters)
      && !Falsy(email)
      && (forall k :: k in extra ==> k in ModelKeywords)
    ensures (exists k :: k in extra && k in Parameters) ==>
      r.Failure? && r.error.TypeError? && r.error.keywords <= Parameters
    ensures (forall k :: k in extra ==> k !in Parameters) && Falsy(email) ==>
      r == Failure(ValueError(EmailRequired))
    ensures r.Failure? && r.error.TypeError? ==>
      && r.error.keywords != {}
      && forall k :: k in r.error.keywords ==> k in extra && (k in Parameters || k !in ModelKeywords)
    ensures r.Success? ==>
      && r.value.username == username
      && r.value.email == normalize(email.value)
      && r.value.password == password
    ensures r.Success? ==> r.value.fields.Keys == extra.Keys + {IsStaff, IsSuperuser}
    ensures r.Success? ==> forall k :: k in extra ==> r.value.fields[k] == extra[k]
    ensures r.Success? && IsStaff !in extra ==> r.value.fields[IsStaff] == PyBool(false)
    ensures r.Success? && IsSuperuser !in extra ==> r.value.fields[IsSuperuser] == PyBool(false)
  {
    assert forall k :: k in extra && k in Parameters ==> k in BoundTwice(extra);
    if BoundTwice(extra) != {} then Failure(TypeError(BoundTwice(extra)))
    else if Falsy(email) then Failure(ValueError(EmailRequired))
    else
      var fields := SetDefault(SetDefault(extra, IsStaff, PyBool(false)), IsSuperuser, PyBool(false));
      assert forall k :: k in fields && k !in ModelKeywords ==> k in NotModelKeywords(fields);
      if NotModelKeywords(fields) != {} then Failure(TypeError(NotModelKeywords(fields)))
      else Success(User(username, normalize(email.value), password, fields))
  }

  /** A keyword that is no column of the model is refused once the email is set. */
  lemma UnknownKeywordRefused(normalize: string -> string)
    ensures CreateUser("u", Some("e@x"), None, map["foo" := PyInt(1)], normalize) == Failure(TypeError({"foo"}))
  {
    var fields := SetDefault(SetDefault(map["foo" := PyInt(1)], IsStaff, PyBool(false)), IsSuperuser, PyBool(false));
    assert fields.Keys == {"foo", IsStaff, IsSuperuser};
    assert NotModelKeywords(fields) == {"foo"};
  }

  /** A many-to-many field cannot be assigned through the constructor either. */
  lemma ManyToManyRefused(normalize: string -> string)
    ensures CreateUser("u", Some("e@x"), None, map["groups" := PyNone], normalize) == Failure(TypeError({"groups"}))
  {
    var fields := SetDefault(SetDefault(map["groups" := PyNone], IsStaff, PyBool(false)), IsSuperuser, PyBool(false));
    assert fields.Keys == {"groups", IsStaff, IsSuperuser};
    assert NotModelKeywords(fields) == {"groups"};
  }

  /** The email is checked before the constructor sees the keywords. */
  lemma EmailCheckedBeforeKeywords(normalize: string -> string)
    ensures CreateUser("u", None, None, map["foo" := PyInt(1)], normalize) == Failure(ValueError(EmailRequired))
  {
  }

  /** The extra fields of `create_superuser` after both flags default to true. */
  function SuperuserFields(extra: Fields): (r: Fields)
    ensures r.Keys == extra.Keys + {IsStaff, IsSuperuser}
    ensures forall k :: k in extra ==> r[k] == extra[k]
    ensures IsStaff !in extra ==> r[IsStaff] == PyBool(true)
    ensures IsSuperuser !in extra ==> r[IsSuperuser] == PyBool(true)
  {
    SetDefault(SetDefault(extra, IsStaff, PyBool(true)), IsSuperuser, PyBool(true))
  }

  /**
   The two `is not True` checks, staff first. They compare by identity: only the
   boolean True passes, so 1, "True" or None are refused as much as False.
   */
  function SuperuserFlagError(fields: Fields): (e: Option<Raised>)
    requires IsStaff in fields && IsSuperuser in fields
    ensures e.None? <==> fields[IsStaff] == PyBool(true) && fields[IsSuperuser] == PyBool(true)
    ensures fields[IsStaff] != PyBool(true) ==> e == Some(ValueError(SuperuserMustBeStaff))
    ensures fields[IsStaff] == PyBool(true) && fields[IsSuperuser] != PyBool(true) ==>
      e == Some(ValueError(SuperuserMustBeSuperuser))
  {
    if fields[IsStaff] != PyBool(true) then Some(ValueError(SuperuserMustBeStaff))
    else if fields[IsSuperuser] != PyBool(true) then Some(ValueError(SuperuserMustBeSuperuser))
    else None
  }

  /**
   `create_superuser` as the source writes it: after the call binding, the defaults
   and the two checks the method ends without a `return`, so it yields None and no
   user is ever created. Neither the email nor the model's keywords are looked at.
   */
  function CreateSuperuserAsWritten(username: string, email: Option<string>, password: Option<string>,
                                    extra: Fields): (r: Result<Option<User>, Raised>)
    ensures r.Success? ==> r.value == None
    ensures r.Failure? <==>
      (exists k :: k in extra && k in Parameters) ||
      (IsStaff in extra && extra[IsStaff] != PyBool(true)) ||
      (IsSuperuser in extra && extra[IsSuperuser] != PyBool(true))
    ensures (exists k :: k in extra && k in Parameters) ==>
      r.Failure? && r.error.TypeError? && r.error.keywords <= Parameters
  {
    assert forall k :: k in extra && k in Parameters ==> k in BoundTwice(extra);
    if BoundTwice(extra) != {} then Failure(TypeError(BoundTwice(extra)))
    else
      var fields := SuperuserFields(extra);
      match SuperuserFlagError(fields)
      case Some(e) => Failure(e)
      case None => Success(None)
  }

  /** The plainest call, with a valid email and no explicit flags, returns no user. */
  lemma SuperuserAsWrittenCreatesNobody()
    ensures CreateSuperuserAsWritten("admin", Some("admin@example.com"), Some("secret"), map[]) == Success(None)
  {
  }

  /**
   `create_superuser` as evidently intended: the same defaults and checks, then the
   user is created through `create_user` with the defaulted fields.
   */
  function CreateSuperuser(username: string, email: Option<string>, password: Option<string>,
                           extra: Fields, normalize: string -> string): (r: Result<User, Raised>)
    ensures (exists k :: k in extra && k in Parameters) ==>
      r.Failure? && r.error.TypeError? && r.error.keywords <= Parameters
    ensures (forall k :: k in extra ==> k !in Parameters) &&
            IsStaff in extra && extra[IsStaff] != PyBool(true) ==>
      r == Failure(ValueError(SuperuserMustBeStaff))
    ensures (forall k :: k in extra ==> k !in Parameters) &&
            (IsStaff !in extra || extra[IsStaff] == PyBool(true)) &&
            IsSuperuser in extra && extra[IsSuperuser] != PyBool(true) ==>
      r == Failure(ValueError(SuperuserMustBeSuperuser))
    ensures r.Success? <==>
      && (forall k :: k in extra ==> k !in Parameters)
      && (IsStaff !in extra || extra[IsStaff] == PyBool(true))
      && (IsSuperuser !in extra || extra[IsSuperuser] == PyBool(true))
      && !Falsy(email)
      && (forall k :: k in extra ==> k in ModelKeywords)
    ensures r.Success? ==>
      && IsStaff in r.value.fields && IsSuperuser in r.value.fields
      && r.value.fields[IsStaff] == PyBool(true)
      && r.value.fields[IsSuperuser] == PyBool(true)
      && r.value.username == username
      && r.value.email == normalize(email.value)
  {
    assert forall k :: k in extra && k in Parameters ==> k in BoundTwice(extra);
    if BoundTwice(extra) != {} then Failure(TypeError(BoundTwice(extra)))
    else
      var fields := SuperuserFields(extra);
      match SuperuserFlagError(fields)
      case Some(e) => Failure(e)
      case None => CreateUser(username, email, password, fields, normalize)
  }

  /**
   The corrected method raises exactly where the written one raises, with the same
   error, and where the written one returns None it returns the user `create_user`
   builds, or `create_user`'s own error for a missing email.
   */
  lemma SuperuserFixAgrees(username: string, email: Option<string>, password: Option<string>,
                           extra: Fields, normalize: string -> string)
    ensures var written := CreateSuperuserAsWritten(username, email, password, extra);
      var fixed := CreateSuperuser(username, email, password, extra, normalize);
      && (written.Failure? ==> fixed == Failure(written.error))
      && (written.Success? ==> fixed == CreateUser(username, email, password, SuperuserFields(extra), normalize))
  {
  }

  /** A plain user and a superuser differ only in the defaults of the two flags. */
  lemma UserFlagDefaults(username: string, email: string, password: Option<string>, normalize: string -> string)
    requires email != ""
    ensures var u := CreateUser(username, Some(email), password, map[], normalize);
      var su := CreateSuperuser(username, Some(email), password, map[], normalize);
      && u.Success? && su.Success?
      && u.value.fields == map[IsStaff := PyBool(false), IsSuperuser := PyBool(false)]
      && su.value.fields == map[IsStaff := PyBool(true), IsSuperuser := PyBool(true)]
      && su.value.(fields := u.value.fields) == u.value
  {
  }
}
