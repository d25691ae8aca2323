/** The credential vault's pure helpers and its module-level singleton:
    validating and redacting a credentials dictionary, choosing where the
    encryption key comes from, and `get_vault`. The cryptography (Fernet,
    PBKDF2, base64) is opaque: a key source records what would be handed
    to it. */
module CredentialVault {
  import opened Wrappers
  import opened Strings

  /** A value in a credentials dictionary: a `str`, or any other Python
      value (which redaction copies unchanged unless the key is secret). */
  datatype Value = Text(text: string) | Other(token: nat)

  type Credentials = map<string, Value>

  const REQUIRED_FIELDS: seq<string> := ["email", "password"]
  const MASK: string := "***"
  /** The exception `parts[0][0]` raises on an empty local part. */
  const INDEX_ERROR: string := "IndexError: string index out of range"

  // ------------------------------------------------------------ validation

  /** `validate_credentials`: every required field is a key. */
  function ValidateCredentials(credentials: Credentials): (valid: bool)
    ensures valid <==> "email" in credentials && "password" in credentials
  {
    forall field | field in REQUIRED_FIELDS :: field in credentials
  }

  /** Validation looks only at the keys: changing any value keeps the verdict. */
  lemma ValidationIgnoresValues(credentials: Credentials, key: string, v: Value)
    requires key in credentials
    ensures ValidateCredentials(credentials[key := v]) == ValidateCredentials(credentials)
  {
  }

  // ------------------------------------------------------------- redaction

  /** A key whose value is always replaced by the mask. */
  predicate IsSecretKey(key: string) {
    key == "password" || Contains(Lower(key), "secret")
  }

  /** "email" is not a secret key, so an email value reaches the email rule. */
  lemma EmailNotSecret()
    ensures !IsSecretKey("email")
  {
    assert |Lower("email")| == 5;
  }

  /** Any key with "secret" in it, in any letter case ("Secret",
      "sEcReT", ...), is secret. */
  lemma SecretInAnyCase(key: string, word: string, i: nat)
    requires OccursAt(key, word, i) && Lower(word) == "secret"
    ensures IsSecretKey(key)
  {
    LowerOccurs(key, word, i);
    assert OccursAt(Lower(key), "secret", i);
  }

  /** The text between the first and the second '@' (or to the end). */
  function SecondPart(value: string): string
    requires '@' in value
  {
    var rest := value[IndexOf(value, '@') + 1..];
    if '@' in rest then rest[..IndexOf(rest, '@')] else rest
  }

  /** The first piece of `split` runs up to the first separator. */
  lemma SplitOnFirst(s: string, sep: char)
    ensures SplitOn(s, sep)[0] == if sep in s then s[..IndexOf(s, sep)] else s
  {
  }

  /** `f"{parts[0][0]}***@{parts[1]}"` with `parts = value.split('@')`. */
  function MaskEmail(value: string): (r: Result<string, string>)
    requires '@' in value
    ensures r.Failure? <==> value[0] == '@'
    ensures r.Failure? ==> r.error == INDEX_ERROR
    ensures r.Success? ==> r.value == [value[0]] + MASK + "@" + SecondPart(value)
  {
    var parts := SplitOn(value, '@');
    SplitOnFirst(value, '@');
    SplitOnFirst(value[IndexOf(value, '@') + 1..], '@');
    if parts[0] == "" then Failure(INDEX_ERROR)
    else Success([parts[0][0]] + MASK + "@" + parts[1])
  }

  /** The loop body of `sanitize_credentials_for_logging` for one entry. */
  function MaskedValue(key: string, value: Value): Result<Value, string> {
    if IsSecretKey(key) then Success(Text(MASK))
    else if key == "email" && value.Text? && '@' in value.text then
      match MaskEmail(value.text)
      case Success(masked) => Success(Text(masked))
      case Failure(e) => Failure(e)
    else Success(value)
  }

  /** What redaction does to one entry: secrets are masked first, then an
      email with an '@' is masked, and anything else is copied. */
  lemma MaskedValueMeaning(key: string, value: Value)
    ensures IsSecretKey(key) ==> MaskedValue(key, value) == Success(Text(MASK))
    ensures !IsSecretKey(key) && !(key == "email" && value.Text? && '@' in value.text)
      ==> MaskedValue(key, value) == Success(value)
    ensures key == "email" && value.Text? && '@' in value.text ==>
      (MaskedValue(key, value).Failure? <==> value.text[0] == '@') &&
      (MaskedValue(key, value).Success? ==>
        MaskedValue(key, value).value == Text([value.text[0]] + MASK + "@" + SecondPart(value.text)))
  {
    EmailNotSecret();
  }

  /** Redaction raises exactly when the email value starts with '@'. */
  predicate BareEmail(credentials: Credentials) {
    "email" in credentials && credentials["email"].Text? &&
    |credentials["email"].text| > 0 && credentials["email"].text[0] == '@'
  }

  lemma FailsOnlyOnBareEmail(credentials: Credentials)
    ensures (exists key | key in credentials :: MaskedValue(key, credentials[key]).Failure?)
      <==> BareEmail(credentials)
  {
    EmailNotSecret();
    if BareEmail(credentials) {
      assert MaskedValue("email", credentials["email"]).Failure?;
    }
  }

  /** `sanitize_credentials_for_logging`: builds a fresh dictionary with
      every entry redacted; the input map is a value and is left alone. */
  method SanitizeCredentialsForLogging(credentials: Credentials) returns (r: Result<Credentials, string>)
    ensures r.Failure? <==> exists key | key in credentials :: MaskedValue(key, credentials[key]).Failure?
    ensures r.Success? ==>
      (forall key :: key in r.value <==> key in credentials) &&
      forall key | key in credentials :: Success(r.value[key]) == MaskedValue(key, credentials[key])
  {
    var sanitized: Credentials := map[];
    var remaining := credentials.Keys;
    while remaining != {}
      invariant remaining <= credentials.Keys
      invariant forall key :: key in sanitized <==> key in credentials && key !in remaining
      invariant forall key | key in sanitized :: Success(sanitized[key]) == MaskedValue(key, credentials[key])
      decreases remaining
    {
      var key :| key in remaining;
      var masked := MaskedValue(key, credentials[key]);
      if masked.Failure? {
        return Failure(masked.error);
      }
      sanitized := sanitized[key := masked.value];
      remaining := remaining - {key};
    }
    return Success(sanitized);
  }

  /** The documented example, for any email whose local part starts with
      `first` and whose domain has no '@'. */
  lemma MaskEmailShape(first: char, local: string, domain: string)
    requires first != '@' && '@' !in local && '@' !in domain
    ensures MaskEmail([first] + local + "@" + domain) == Success([first] + MASK + "@" + domain)
  {
    var v := [first] + local + "@" + domain;
    assert v[1 + |local|] == '@';
    assert v[..1 + |local|] == [first] + local;
    var i := IndexOf(v, '@');
    assert i == 1 + |local|;
    assert v[i + 1..] == domain;
  }

  /** A secret key's value is masked whatever it holds. */
  lemma SecretMasked(key: string, value: Value)
    requires key == "password"
    ensures MaskedValue(key, value) == Success(Text(MASK))
  {
  }

  /** An email with no '@' in the domain is masked as `first***@domain`. */
  lemma EmailMasked(key: string, email: string, first: char, local: string, domain: string)
    requires key == "email" && email == [first] + local + "@" + domain
    requires first != '@' && '@' !in local && '@' !in domain
    ensures MaskedValue(key, Text(email)) == Success(Text([first] + MASK + "@" + domain))
  {
    EmailNotSecret();
    assert '@' in email by { assert email[1 + |local|] == '@'; }
    MaskEmailShape(first, local, domain);
  }

  /** The masked form of the documented email, spelled out. */
  lemma MaskedExample(first: char, domain: string)
    requires first == 'u' && domain == "example.com"
    ensures [first] + MASK + "@" + domain == "u***@example.com"
  {
    var masked := [first] + MASK + "@" + domain;
    assert |masked| == 16;
    forall i | 0 <= i < 16 ensures masked[i] == "u***@example.com"[i] {
      if i >= 5 {
        assert masked[i] == domain[i - 5];
      }
    }
  }

  /** `{'email': 'user@example.com', 'password': 'secret'}` is logged as
      `{'email': 'u***@example.com', 'password': '***'}`. */
  lemma DocumentedExample(emailKey: string, passwordKey: string, email: string, password: string)
    requires emailKey == "email" && passwordKey == "password"
    requires email == "user@example.com" && password == "secret"
    ensures MaskedValue(emailKey, Text(email)) == Success(Text("u***@example.com"))
    ensures MaskedValue(passwordKey, Text(password)) == Success(Text("***"))
  {
    var first, local, domain := 'u', "ser", "example.com";
    assert email == [first] + local + "@" + domain;
    EmailMasked(emailKey, email, first, local, domain);
    MaskedExample(first, domain);
    SecretMasked(passwordKey, Text(password));
  }

  // ------------------------------------------------------------ key source

  /** Where the Fernet key comes from: the configured key as given, or a
      PBKDF2-SHA256 derivation from the master password. */
  datatype KeySource =
    | Configured(key: string)
    | Derived(password: string, salt: string, iterations: nat, length: nat)

  const DEV_SALT: string := "subzero-dev-salt-replace-in-prod"
  const KDF_ITERATIONS: nat := 480000
  const KEY_LENGTH: nat := 32
  const MISSING_KEY_ERROR: string :=
    "CREDENTIAL_ENCRYPTION_KEY or CREDENTIAL_MASTER_PASSWORD must be set. Never use default passwords in any environment."

  /** `_get_encryption_key` on the values of CREDENTIAL_ENCRYPTION_KEY and
      CREDENTIAL_MASTER_PASSWORD. */
  function GetEncryptionKey(keyEnv: Option<string>, passwordEnv: Option<string>): (r: Result<KeySource, string>)
    ensures r.Failure? <==> !Given(keyEnv) && !Given(passwordEnv)
    ensures r.Failure? ==> r.error == MISSING_KEY_ERROR
    ensures r.Success? && r.value.Configured? <==> Given(keyEnv)
    ensures r.Success? ==> r.value.Configured? ==> r.value.key == keyEnv.value
    ensures r.Success? ==> r.value.Derived? ==>
      r.value == Derived(passwordEnv.value, DEV_SALT, KDF_ITERATIONS, KEY_LENGTH)
  {
    if Given(keyEnv) then Success(Configured(keyEnv.value))
    else if Given(passwordEnv) then Success(Derived(passwordEnv.value, DEV_SALT, KDF_ITERATIONS, KEY_LENGTH))
    else Failure(MISSING_KEY_ERROR)
  }

  /** A set key makes the password irrelevant, and an empty key counts as unset. */
  lemma KeyTakesPrecedence(key: string, p1: Option<string>, p2: Option<string>)
    requires key != ""
    ensures GetEncryptionKey(Some(key), p1) == GetEncryptionKey(Some(key), p2)
    ensures GetEncryptionKey(Some(""), p1) == GetEncryptionKey(None, p1)
  {
  }

  // ------------------------------------------------------------- singleton

  /** A constructed `CredentialVault`, holding the key it was built with. */
  class Vault {
    const keySource: KeySource

    constructor(keySource: KeySource)
      ensures this.keySource == keySource
    {
      this.keySource := keySource;
    }
  }

  /** The module global `_vault_instance` and `get_vault`. */
  class VaultHolder {
    var instance: Vault?
    /** How many vaults `GetVault` has constructed. */
    ghost var constructed: nat

    ghost predicate Valid()
      reads this
    {
      constructed <= 1 && (instance == null <==> constructed == 0)
    }

    /** Module import: `_vault_instance = None`. */
    constructor()
      ensures Valid() && instance == null && constructed == 0
    {
      instance := null;
      constructed := 0;
    }

    /** `get_vault`: constructs the vault on the first successful call and
        returns that same instance on every later call. A failed
        construction raises and leaves the global unset. */
    method GetVault(keyEnv: Option<string>, passwordEnv: Option<string>) returns (r: Result<Vault, string>)
      requires Valid()
      modifies this
      ensures Valid()
      ensures old(instance) != null ==>
        r == Success(old(instance)) && instance == old(instance) && constructed == old(constructed)
      ensures old(instance) == null && GetEncryptionKey(keyEnv, passwordEnv).Failure? ==>
        r == Failure(MISSING_KEY_ERROR) && instance == null && constructed == old(constructed)
      ensures old(instance) == null && GetEncryptionKey(keyEnv, passwordEnv).Success? ==>
        r.Success? && fresh(r.value) && instance == r.value &&
        r.value.keySource == GetEncryptionKey(keyEnv, passwordEnv).value && constructed == 1
    {
      if instance == null {
        var source := GetEncryptionKey(keyEnv, passwordEnv);
        if source.Failure? {
          return Failure(source.error);
        }
        instance := new Vault(source.value);
        constructed := constructed + 1;
      }
      return Success(instance);
    }
  }

  /** Two calls to `get_vault` give the same vault, whatever the
      environment says by the second call. */
  method GetVaultTwice(k1: Option<string>, p1: Option<string>, k2: Option<string>, p2: Option<string>)
    returns (first: Result<Vault, string>, second: Result<Vault, string>)
    ensures first.Success? ==> second == first
    ensures first.Success? <==> GetEncryptionKey(k1, p1).Success?
  {
    var holder := new VaultHolder();
    first := holder.GetVault(k1, p1);
    second := holder.GetVault(k2, p2);
  }
}
