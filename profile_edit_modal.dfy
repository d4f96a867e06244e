/** The profile edit dialog (src/components/ProfileEditModal/ProfileEditModal.tsx):
    its form state, the validation that fills the error record field by
    field, the handlers that edit fields and pick an avatar, and the choice
    of the avatar image shown. */
module ProfileEditModal {
  import opened Common
  import opened Http
  import Profile

  /** The four inputs, by their `name` attribute. */
  datatype Field = FullName | Username | Email | Phone
  {
    function Key(): string
    {
      match this
      case FullName => "full_name"
      case Username => "username"
      case Email => "email"
      case Phone => "phone"
    }
  }

  lemma KeysDistinct(f: Field, g: Field)
    ensures f.Key() == g.Key() <==> f == g
  {
  }

  datatype FormData = FormData(fullName: string, username: string, email: string, phone: string)
  {
    function Get(f: Field): string
    {
      match f
      case FullName => fullName
      case Username => username
      case Email => email
      case Phone => phone
    }

    /** `{ ...prev, [name]: value }` */
    function Set(f: Field, value: string): (d: FormData)
      ensures d.Get(f) == value
      ensures forall g :: g != f ==> d.Get(g) == Get(g)
    {
      match f
      case FullName => this.(fullName := value)
      case Username => this.(username := value)
      case Email => this.(email := value)
      case Phone => this.(phone := value)
    }
  }

  /** The form as filled from the profile (`value || ''` on every field). */
  function FromProfile(p: Profile.ProfileData): FormData
  {
    FormData(p.fullName, p.username, p.email, p.phone)
  }

  const FullNameRequired := "To&apos;liq ism kiritilishi shart"
  const UsernameRequired := "Foydalanuvchi nomi kiritilishi shart"
  const EmailInvalid := "Noto&apos;g&apos;ri email formati"
  const PhoneInvalid := "Noto&apos;g&apos;ri telefon raqami"
  const NotAnImage := "Faqat rasm fayllarini yuklashingiz mumkin"
  const ImageTooLarge := "Rasm hajmi 5MB dan katta bo&apos;lishi mumkin emas"
  const MaxAvatarBytes := 5 * 1024 * 1024
  const DefaultAvatar := "/assets/imgs/default-avatar.jpg"

  /** `[^\s@]+` */
  predicate NoBlankOrAt(s: string)
  {
    |s| > 0 && forall i :: 0 <= i < |s| ==> s[i] != '@' && !IsSpace(s[i])
  }

  /** `/^[^\s@]+@[^\s@]+\.[^\s@]+$/`: a local part, `@`, a name part, a
      dot, a last part, none of them empty or holding blanks or `@`. */
  predicate EmailShape(s: string)
  {
    exists i, j | 0 <= i < j < |s| :: EmailSplit(s, i, j)
  }

  /** The `@` at `i` and the dot at `j` cut `s` into the three parts. */
  predicate EmailSplit(s: string, i: int, j: int)
  {
    0 <= i < j < |s| && s[i] == '@' && s[j] == '.'
    && NoBlankOrAt(s[..i]) && NoBlankOrAt(s[i + 1..j]) && NoBlankOrAt(s[j + 1..])
  }

  /** `[0-9\s\-\(\)]` */
  predicate PhoneChar(c: char)
  {
    IsDigit(c) || IsSpace(c) || c == '-' || c == '(' || c == ')'
  }

  predicate PhoneRun(s: string)
  {
    |s| >= 10 && forall i :: 0 <= i < |s| ==> PhoneChar(s[i])
  }

  /** `/^\+?[0-9\s\-\(\)]{10,}$/` */
  predicate PhoneShape(s: string)
  {
    (|s| > 0 && s[0] == '+' && PhoneRun(s[1..])) || PhoneRun(s)
  }

  lemma EmailAccepted()
    ensures EmailShape("a@b.c")
  {
    var s := "a@b.c";
    assert s[..1] == "a" && s[2..3] == "b" && s[4..] == "c";
    assert EmailSplit(s, 1, 3);
  }

  /** A blank before the local part breaks the shape. */
  lemma LeadingBlankRejected(s: string)
    requires |s| > 0 && IsSpace(s[0])
    ensures !EmailShape(s)
  {
    forall i, j | 0 <= i < j < |s|
      ensures !EmailSplit(s, i, j)
    {
      if 0 < i {
        assert s[..i][0] == s[0];
      }
    }
  }

  /** `!value.trim()` */
  predicate Blank(value: string)
  {
    Trim(value) == ""
  }

  /** `formData.email && formData.email.trim() && !emailRegex.test(formData.email)` */
  predicate EmailRejected(email: string)
  {
    email != "" && Trim(email) != "" && !EmailShape(email)
  }

  /** `formData.phone && !phoneRegex.test(formData.phone)` */
  predicate PhoneRejected(phone: string)
  {
    phone != "" && !PhoneShape(phone)
  }

  /** One `if (...) newErrors.key = message;` step. */
  function AddIf(m: map<string, string>, failed: bool, f: Field, message: string): map<string, string>
  {
    if failed then m[f.Key() := message] else m
  }

  /** The record for a given set of failed checks. */
  function ErrorRecord(nameBlank: bool, usernameBlank: bool, emailBad: bool, phoneBad: bool): map<string, string>
  {
    AddIf(AddIf(AddIf(AddIf(map[], nameBlank, FullName, FullNameRequired),
      usernameBlank, Username, UsernameRequired), emailBad, Email, EmailInvalid), phoneBad, Phone, PhoneInvalid)
  }

  lemma ErrorRecordKeys(nameBlank: bool, usernameBlank: bool, emailBad: bool, phoneBad: bool)
    ensures var r := ErrorRecord(nameBlank, usernameBlank, emailBad, phoneBad);
      && ("full_name" in r <==> nameBlank) && ("username" in r <==> usernameBlank)
      && ("email" in r <==> emailBad) && ("phone" in r <==> phoneBad)
      && (forall k :: k in r ==> k in {"full_name", "username", "email", "phone"} && r[k] != "")
      && (r == map[] <==> !nameBlank && !usernameBlank && !emailBad && !phoneBad)
  {
    var r := ErrorRecord(nameBlank, usernameBlank, emailBad, phoneBad);
    if r == map[] {
      assert "full_name" !in r && "username" !in r && "email" !in r && "phone" !in r;
    }
  }

  /** Every recorded error has a message. */
  predicate HasMessages(m: map<string, string>)
  {
    forall k :: k in m ==> m[k] != ""
  }

  lemma ErrorRecordMessages(nameBlank: bool, usernameBlank: bool, emailBad: bool, phoneBad: bool)
    ensures HasMessages(ErrorRecord(nameBlank, usernameBlank, emailBad, phoneBad))
  {
  }

  /** The error record `validateForm` builds. */
  function FormErrors(d: FormData): map<string, string>
  {
    ErrorRecord(Blank(d.fullName), Blank(d.username), EmailRejected(d.email), PhoneRejected(d.phone))
  }

  /** Which fields `validateForm` flags, and why: names that are blank after
      trimming, an e-mail that is not blank yet does not match, a phone that
      is not empty yet does not match. Nothing else gets an entry. */
  lemma FormErrorsSpec(d: FormData)
    ensures "full_name" in FormErrors(d) <==> AllSpace(d.fullName)
    ensures "username" in FormErrors(d) <==> AllSpace(d.username)
    ensures "email" in FormErrors(d) <==> !AllSpace(d.email) && !EmailShape(d.email)
    ensures "phone" in FormErrors(d) <==> d.phone != "" && !PhoneShape(d.phone)
    ensures forall k :: k in FormErrors(d) ==> k in {"full_name", "username", "email", "phone"} && FormErrors(d)[k] != ""
    ensures FormErrors(d) == map[] <==>
      !AllSpace(d.fullName) && !AllSpace(d.username)
      && (AllSpace(d.email) || EmailShape(d.email)) && (d.phone == "" || PhoneShape(d.phone))
  {
    TrimEmptyIffAllSpace(d.fullName);
    TrimEmptyIffAllSpace(d.username);
    TrimEmptyIffAllSpace(d.email);
    ErrorRecordKeys(Blank(d.fullName), Blank(d.username), EmailRejected(d.email), PhoneRejected(d.phone));
  }

  /** The e-mail is tested untrimmed: a leading blank makes it invalid. */
  lemma EmailNotTrimmed(d: FormData)
    requires d.email == " a@b.c"
    ensures "email" in FormErrors(d)
  {
    LeadingBlankRejected(d.email);
    FormErrorsSpec(d);
    assert !IsSpace(d.email[1]);
  }

  /** `avatarPreview || (avatar ? (avatar.startsWith('http') ? avatar : API_URL + avatar) : default)` */
  function AvatarSource(preview: Option<string>, avatar: string): (src: string)
    ensures preview.Some? && preview.value != "" ==> src == preview.value
    ensures (preview.None? || preview.value == "") && avatar == "" ==> src == DefaultAvatar
    ensures (preview.None? || preview.value == "") && StartsWith(avatar, "http") ==> src == avatar
    ensures (preview.None? || preview.value == "") && avatar != "" && !StartsWith(avatar, "http") ==> src == ApiUrl + avatar
  {
    if preview.Some? && preview.value != "" then preview.value
    else if avatar != "" then (if StartsWith(avatar, "http") then avatar else ApiUrl + avatar)
    else DefaultAvatar
  }

  /** The step-by-step construction of the record in `validateForm`: one
      entry per failed check, in field order. */
  method BuildErrors(nameBlank: bool, usernameBlank: bool, emailBad: bool, phoneBad: bool)
    returns (m: map<string, string>)
    ensures m == ErrorRecord(nameBlank, usernameBlank, emailBad, phoneBad)
  {
    m := map[];
    if nameBlank {
      m := m[FullName.Key() := FullNameRequired];
    }
    if usernameBlank {
      m := m[Username.Key() := UsernameRequired];
    }
    if emailBad {
      m := m[Email.Key() := EmailInvalid];
    }
    if phoneBad {
      m := m[Phone.Key() := PhoneInvalid];
    }
  }

  /** The four checks of `validateForm`, run in order on the form's
      fields; every message written is non-empty. */
  method CheckFields(d: FormData) returns (newErrors: map<string, string>)
    ensures newErrors == FormErrors(d) && HasMessages(newErrors)
  {
    var nameBlank := Blank(d.fullName);
    var usernameBlank := Blank(d.username);
    var emailBad := EmailRejected(d.email);
    var phoneBad := PhoneRejected(d.phone);
    newErrors := BuildErrors(nameBlank, usernameBlank, emailBad, phoneBad);
    ErrorRecordMessages(nameBlank, usernameBlank, emailBad, phoneBad);
  }

  /** The dialog's state. */
  class EditForm {
    var formData: FormData
    var avatarFile: Option<File>
    var avatarPreview: Option<string>
    var isLoading: bool
    var errors: map<string, string>

    /** Every recorded error has a message, as `validateForm` writes them. */
    ghost predicate Valid()
      reads this
    {
      HasMessages(errors)
    }

    constructor (profile: Profile.ProfileData)
      ensures Valid()
      ensures formData == FromProfile(profile) && avatarFile.None? && avatarPreview.None? && !isLoading && errors == map[]
    {
      formData := FromProfile(profile);
      avatarFile := None;
      avatarPreview := None;
      isLoading := false;
      errors := map[];
    }

    /** The effect run when the dialog opens. */
    method Reset(profile: Profile.ProfileData)
      modifies this
      ensures Valid()
      ensures formData == FromProfile(profile) && avatarFile.None? && avatarPreview.None? && errors == map[]
      ensures isLoading == old(isLoading)
    {
      formData := FromProfile(profile);
      avatarFile := None;
      avatarPreview := None;
      errors := map[];
    }

    /** `handleInputChange`: the field takes the value and loses its error;
      every other error stays. */
    method InputChange(field: Field, value: string)
      requires Valid()
      modifies this
      ensures Valid()
      ensures formData == old(formData).Set(field, value)
      ensures errors == old(errors) - {field.Key()}
      ensures avatarFile == old(avatarFile) && avatarPreview == old(avatarPreview) && isLoading == old(isLoading)
    {
      formData := formData.Set(field, value);
      if field.Key() in errors && errors[field.Key()] != "" {
        var newErrors := errors - {field.Key()};
        errors := newErrors;
      }
    }

    /** `handleAvatarChange`: the toast shown, if any. A file is taken only
        if it is an image of at most 5 MB; a refused or missing file changes
        nothing. */
    method AvatarChange(file: Option<File>) returns (toast: Option<string>)
      modifies this
      ensures file.None? ==> toast.None? && avatarFile == old(avatarFile)
      ensures file.Some? && !StartsWith(file.value.mimeType, "image/") ==> toast == Some(NotAnImage) && avatarFile == old(avatarFile)
      ensures file.Some? && StartsWith(file.value.mimeType, "image/") && file.value.size > MaxAvatarBytes ==>
        toast == Some(ImageTooLarge) && avatarFile == old(avatarFile)
      ensures file.Some? && StartsWith(file.value.mimeType, "image/") && file.value.size <= MaxAvatarBytes ==>
        toast.None? && avatarFile == file
      ensures formData == old(formData) && errors == old(errors) && avatarPreview == old(avatarPreview) && isLoading == old(isLoading)
    {
      toast := None;
      if file.Some? {
        var f := file.value;
        if !StartsWith(f.mimeType, "image/") {
          toast := Some(NotAnImage);
          return;
        }
        if f.size > MaxAvatarBytes {
          toast := Some(ImageTooLarge);
          return;
        }
        avatarFile := file;
      }
    }

    /** The `FileReader` finished: the preview is its data URL. */
    method PreviewLoaded(dataUrl: string)
      modifies this
      ensures avatarPreview == Some(dataUrl)
      ensures formData == old(formData) && errors == old(errors) && avatarFile == old(avatarFile) && isLoading == old(isLoading)
    {
      avatarPreview := Some(dataUrl);
    }

    /** `validateForm`: the record is rebuilt from scratch and the form is
        valid exactly when it is empty. */
    method ValidateForm() returns (valid: bool)
      modifies this
      ensures Valid()
      ensures errors == FormErrors(formData)
      ensures valid <==> errors == map[]
      ensures formData == old(formData) && avatarFile == old(avatarFile) && avatarPreview == old(avatarPreview) && isLoading == old(isLoading)
    {
      var newErrors := CheckFields(formData);
      errors := newErrors;
      valid := errors == map[];
    }

    /** `handleClose`: asks the parent to close unless a save is running;
        the state is untouched. */
    method HandleClose() returns (closes: bool)
      ensures closes <==> !isLoading
    {
      closes := !isLoading;
    }
  }
}
