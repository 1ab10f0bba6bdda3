/**
 * The link-shortening form: its two switches (private and password), the
 * expiry-days field, and what a submission sends to the server. The
 * signed-in flag comes from the session store at the moment of each event.
 */
module LinkForm {
  import opened Wrappers
  import opened JsString

  const InvalidUrlMessage: string := "Por favor, insira uma URL válida."
  const ShortPasswordMessage: string := "A senha precisa ter pelo menos 6 caracteres."
  const MinPasswordLength: int := 6
  const MaxDays: int := 365

  /** The form's state: its text fields, the private switch and whether the password field is on. */
  datatype Form = Form(url: string, nome: string, senha: string, expiraEm: string, privado: bool, senhaVisible: bool)

  /** The body of the shortening request. */
  datatype Payload = Payload(url: string, nome: string, senha: string, expiraEm: string, privado: bool)

  datatype Event =
    | TogglePrivate(signedIn: bool)
    | ToggleSenha
    | EditUrl(url: string)
    | EditNome(nome: string)
    | EditSenha(senha: string)
    | EditDays(input: string)

  const Blank: Form := Form("", "", "", "", false, false)

  /** The two switches are never both on. */
  predicate Exclusive(f: Form) {
    !(f.privado && f.senhaVisible)
  }

  /** The days field is empty or holds a whole number of days from 0 to 365 in decimal. */
  predicate DaysOk(f: Form) {
    f.expiraEm == "" || exists n: nat :: n <= MaxDays && f.expiraEm == ToDecimal(n)
  }

  /** What every reachable form satisfies. */
  predicate Sane(f: Form) {
    Exclusive(f) && DaysOk(f)
  }

  /**
   * `handlePrivadoToggle`: ignored (with a warning) when nobody is signed in;
   * otherwise flips the private switch, and turning it on hides the
   * password field.
   */
  function TogglePrivateSwitch(f: Form, signedIn: bool): (r: Form)
    ensures !signedIn ==> r == f
    ensures signedIn ==> r.privado == !f.privado && r.url == f.url && r.nome == f.nome && r.senha == f.senha && r.expiraEm == f.expiraEm
    ensures signedIn && r.privado ==> !r.senhaVisible
    ensures signedIn && !r.privado ==> r.senhaVisible == f.senhaVisible
  {
    if !signedIn then f
    else if !f.privado then f.(privado := true, senhaVisible := false)
    else f.(privado := false)
  }

  /** `handleSenhaToggle`: flips the password field, and turning it on switches private off. */
  function ToggleSenhaSwitch(f: Form): (r: Form)
    ensures r.senhaVisible == !f.senhaVisible && r.url == f.url && r.nome == f.nome && r.senha == f.senha && r.expiraEm == f.expiraEm
    ensures r.senhaVisible ==> !r.privado
    ensures !r.senhaVisible ==> r.privado == f.privado
  {
    if !f.senhaVisible then f.(senhaVisible := true, privado := false)
    else f.(senhaVisible := false)
  }

  /** The days typed, as `parseInt(value) || 0` clamped to [0, 365]. */
  function ClampDays(input: string): (d: nat)
    ensures d <= MaxDays
    ensures ParseInt(input).None? ==> d == 0
    ensures ParseInt(input).Some? ==>
              d == (if ParseInt(input).value < 0 then 0 else if ParseInt(input).value > MaxDays then MaxDays else ParseInt(input).value)
  {
    var dias := match ParseInt(input) case None => 0 case Some(n) => n;
    if dias > MaxDays then MaxDays else if dias < 0 then 0 else dias
  }

  /** What the days field holds after an edit: the clamped number written back in decimal. */
  function DaysField(input: string): (s: string)
    ensures ParseInt(s) == Some(ClampDays(input))
  {
    ParseIntToDecimal(ClampDays(input));
    ToDecimal(ClampDays(input))
  }

  /** An edit, or a switch, applied to the form. */
  function Apply(f: Form, e: Event): (r: Form)
    ensures Exclusive(f) ==> Exclusive(r)
    ensures DaysOk(f) ==> DaysOk(r)
    ensures e.EditDays? ==> ParseInt(r.expiraEm) == Some(ClampDays(e.input))
  {
    match e
    case TogglePrivate(signedIn) => TogglePrivateSwitch(f, signedIn)
    case ToggleSenha => ToggleSenhaSwitch(f)
    case EditUrl(u) => f.(url := u)
    case EditNome(n) => f.(nome := n)
    case EditSenha(s) => f.(senha := s)
    case EditDays(input) =>
      var r := f.(expiraEm := DaysField(input));
      assert r.expiraEm == ToDecimal(ClampDays(input));
      r
  }

  function Replay(f: Form, events: seq<Event>): Form
    decreases |events|
  {
    if |events| == 0 then f else Replay(Apply(f, events[0]), events[1..])
  }

  /**
   * Whatever the user does, starting from the blank form the two switches
   * are never both on and the days field holds a number from 0 to 365.
   */
  lemma {:induction false} ReplayKeepsSane(f: Form, events: seq<Event>)
    requires Sane(f)
    ensures Sane(Replay(f, events))
    decreases |events|
  {
    if |events| > 0 {
      ReplayKeepsSane(Apply(f, events[0]), events[1..]);
    }
  }

  /** The request body built from the form: the fields a signed-out user cannot set are cleared. */
  function BuildPayload(f: Form, signedIn: bool): (p: Payload)
    ensures p.url == Trim(f.url) && p.expiraEm == Trim(f.expiraEm)
    ensures p.nome == (if signedIn then Trim(f.nome) else "")
    ensures p.senha == (if f.senhaVisible then Trim(f.senha) else "")
    ensures p.privado <==> signedIn && f.privado
  {
    Payload(Trim(f.url), if signedIn then Trim(f.nome) else "", if f.senhaVisible then Trim(f.senha) else "",
            Trim(f.expiraEm), signedIn && f.privado)
  }

  /**
   * `handleSubmit` as written: the URL must be present and parse, and a
   * visible password must be six UTF-16 code units long before trimming; the
   * password is then sent trimmed.
   */
  function SubmitAsWritten(validUrl: string -> bool, f: Form, signedIn: bool): (r: Result<Payload, string>)
    ensures r.Err? <==> f.url == "" || !validUrl(f.url) || (f.senhaVisible && Utf16Length(f.senha) < MinPasswordLength)
    ensures r.Err? && (f.url == "" || !validUrl(f.url)) ==> r.error == InvalidUrlMessage
    ensures r.Ok? ==> r.value == BuildPayload(f, signedIn)
  {
    if f.url == "" || !validUrl(f.url) then Err(InvalidUrlMessage)
    else if f.senhaVisible && Utf16Length(f.senha) < MinPasswordLength then Err(ShortPasswordMessage)
    else Ok(BuildPayload(f, signedIn))
  }

  /**
   * Six spaces pass the client's length check and reach the server as an
   * empty password, which the server reads as "no password": the link asked
   * for as protected is created open.
   */
  lemma BlankPasswordPasses(validUrl: string -> bool, url: string, signedIn: bool)
    requires url != "" && validUrl(url)
    ensures var f := Form(url, "", "      ", "", false, true);
            SubmitAsWritten(validUrl, f, signedIn).Ok? && SubmitAsWritten(validUrl, f, signedIn).value.senha == ""
  {
    var s := "      ";
    assert forall i :: 0 <= i < |s| ==> IsWhite(s[i]);
    TrimEmptyIffAllWhite(s);
  }

  /** `handleSubmit` measuring the password that is actually sent. */
  function Submit(validUrl: string -> bool, f: Form, signedIn: bool): (r: Result<Payload, string>)
    ensures r.Err? <==> f.url == "" || !validUrl(f.url) || (f.senhaVisible && Utf16Length(Trim(f.senha)) < MinPasswordLength)
    ensures r.Err? && (f.url == "" || !validUrl(f.url)) ==> r.error == InvalidUrlMessage
    ensures r.Ok? ==> r.value == BuildPayload(f, signedIn)
    ensures r.Ok? && f.senhaVisible ==> Utf16Length(r.value.senha) >= MinPasswordLength
    ensures r.Ok? && !f.senhaVisible ==> r.value.senha == ""
  {
    if f.url == "" || !validUrl(f.url) then Err(InvalidUrlMessage)
    else if f.senhaVisible && Utf16Length(Trim(f.senha)) < MinPasswordLength then Err(ShortPasswordMessage)
    else Ok(BuildPayload(f, signedIn))
  }

  /**
   * The corrected check refuses only more: whatever it accepts the written
   * one accepts too, with the same body, and it no longer lets a blank
   * password through.
   */
  lemma SubmitRefinesAsWritten(validUrl: string -> bool, f: Form, signedIn: bool)
    ensures Submit(validUrl, f, signedIn).Ok? ==> SubmitAsWritten(validUrl, f, signedIn) == Submit(validUrl, f, signedIn)
    ensures f.senhaVisible && Submit(validUrl, f, signedIn).Ok? ==> Submit(validUrl, f, signedIn).value.senha != ""
  {
    Utf16LengthOfTrim(f.senha);
  }
}
