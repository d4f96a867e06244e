/** The team creation dialog (src/components/Teams/CreateTeamModal/CreateTeamModal.tsx):
    its form state, the validation that fills the error record field by
    field, the payload handed to `onSubmit`, the input handler that blanks
    an error, and the rule that enables the submit button. */
module CreateTeamModal {
  import opened Common
  import opened Http
  import Teams

  /** The four inputs, by their `formData` key. */
  datatype Field = Name | GameId | Avatar | Description
  {
    function Key(): string
    {
      match this
      case Name => "name"
      case GameId => "game_id"
      case Avatar => "avatar"
      case Description => "description"
    }
  }

  datatype FormData = FormData(name: string, gameId: string, description: string, avatar: Option<File>)

  /** A value given to `handleInputChange`: text for the text inputs, a file
      or `null` for the avatar input. */
  datatype Input = TextInput(field: Field, text: string) | FileInput(file: Option<File>)
  {
    function Target(): Field
    {
      if TextInput? then field else Avatar
    }
  }

  /** `{ ...prev, [field]: value }`; a text value given for the avatar key
      leaves the file alone (the handlers never do that). */
  function Apply(d: FormData, input: Input): (e: FormData)
    ensures input.FileInput? ==> e == d.(avatar := input.file)
    ensures input.TextInput? && input.field == Name ==> e == d.(name := input.text)
    ensures input.TextInput? && input.field == GameId ==> e == d.(gameId := input.text)
    ensures input.TextInput? && input.field == Description ==> e == d.(description := input.text)
    ensures input.TextInput? && input.field == Avatar ==> e == d
  {
    match input
    case FileInput(file) => d.(avatar := file)
    case TextInput(field, text) =>
      match field
      case Name => d.(name := text)
      case GameId => d.(gameId := text)
      case Description => d.(description := text)
      case Avatar => d
  }

  const EmptyForm := FormData("", "", "", None)

  const NameRequired := "Jamoa nomi kiritilishi shart"
  const NameTooShort := "Jamoa nomi kamida 2 ta harf bo'lishi kerak"
  const NameTooLong := "Jamoa nomi 50 ta harfdan ko'p bo'lishi mumkin emas"
  const GameRequired := "O'yin tanlanishi shart"
  const AvatarRequired := "Jamoa avatari tanlanishi shart"
  const AvatarWrongType := "Faqat JPEG, PNG yoki WebP formatdagi rasm yuklanishi mumkin"
  const AvatarTooLarge := "Rasm hajmi 5MB dan katta bo'lishi mumkin emas"
  const DescriptionTooLong := "Tavsif 200 ta harfdan ko'p bo'lishi mumkin emas"
  const AllowedTypes := ["image/jpeg", "image/jpg", "image/png", "image/webp"]
  const MaxAvatarBytes := 5 * 1024 * 1024
  const MinNameLength := 2
  const MaxNameLength := 50
  const MaxDescriptionLength := 200

  /** The keys `validateForm` may write. */
  predicate IsFieldKey(k: string)
  {
    k == "name" || k == "game_id" || k == "avatar" || k == "description"
  }

  /** The message for the name: blank, then too short, then too long, all
      measured after trimming. */
  function NameError(name: string): Option<string>
  {
    var t := Trim(name);
    if t == "" then Some(NameRequired)
    else if |t| < MinNameLength then Some(NameTooShort)
    else if |t| > MaxNameLength then Some(NameTooLong)
    else None
  }

  lemma NameErrorCases(name: string)
    ensures NameError(name).None? <==> MinNameLength <= |Trim(name)| <= MaxNameLength
    ensures AllSpace(name) ==> NameError(name) == Some(NameRequired)
    ensures !AllSpace(name) && |Trim(name)| < MinNameLength ==> NameError(name) == Some(NameTooShort)
    ensures |Trim(name)| > MaxNameLength ==> NameError(name) == Some(NameTooLong)
  {
    TrimEmptyIffAllSpace(name);
  }

  function GameError(gameId: string): Option<string>
  {
    if gameId == "" then Some(GameRequired) else None
  }

  /** The message for the avatar: missing, then a type outside the list,
      then over 5 MB. */
  function AvatarError(avatar: Option<File>): Option<string>
  {
    if avatar.None? then Some(AvatarRequired)
    else if avatar.value.mimeType !in AllowedTypes then Some(AvatarWrongType)
    else if avatar.value.size > MaxAvatarBytes then Some(AvatarTooLarge)
    else None
  }

  /** `formData.description && formData.description.length > 200` */
  function DescriptionError(description: string): Option<string>
  {
    if description != "" && |description| > MaxDescriptionLength then Some(DescriptionTooLong) else None
  }

  /** One optional `newErrors.key = message` step. */
  function Record(m: map<string, string>, key: string, message: Option<string>): map<string, string>
  {
    if message.Some? then m[key := message.value] else m
  }

  /** The record built from the four checks' outcomes, in the order
      `validateForm` runs them. */
  function Build(name: Option<string>, game: Option<string>, avatar: Option<string>, description: Option<string>): map<string, string>
  {
    Record(Record(Record(Record(map[], "name", name), "game_id", game), "avatar", avatar), "description", description)
  }

  /** Each key is present exactly when its check failed, with that check's
      message, and no other key is written. */
  lemma BuildKeys(name: Option<string>, game: Option<string>, avatar: Option<string>, description: Option<string>)
    ensures var m := Build(name, game, avatar, description);
      && ("name" in m <==> name.Some?) && ("name" in m ==> m["name"] == name.value)
      && ("game_id" in m <==> game.Some?) && ("game_id" in m ==> m["game_id"] == game.value)
      && ("avatar" in m <==> avatar.Some?) && ("avatar" in m ==> m["avatar"] == avatar.value)
      && ("description" in m <==> description.Some?) && ("description" in m ==> m["description"] == description.value)
      && (forall k :: k in m ==> IsFieldKey(k))
      && (m == map[] <==> name.None? && game.None? && avatar.None? && description.None?)
  {
    var m := Build(name, game, avatar, description);
    assert "name" != "game_id" && "name" != "avatar" && "name" != "description";
    assert "game_id" != "avatar" && "game_id" != "description" && "avatar" != "description";
    if m == map[] {
      assert "name" !in m && "game_id" !in m && "avatar" !in m && "description" !in m;
    }
  }

  /** The error record `validateForm` builds. */
  function FormErrors(d: FormData): map<string, string>
  {
    Build(NameError(d.name), GameError(d.gameId), AvatarError(d.avatar), DescriptionError(d.description))
  }

  /** The name gets exactly one message, chosen by priority. */
  lemma NameMessages(d: FormData)
    ensures "name" in FormErrors(d) <==> !(MinNameLength <= |Trim(d.name)| <= MaxNameLength)
    ensures AllSpace(d.name) ==> "name" in FormErrors(d) && FormErrors(d)["name"] == NameRequired
    ensures !AllSpace(d.name) && |Trim(d.name)| < MinNameLength ==> "name" in FormErrors(d) && FormErrors(d)["name"] == NameTooShort
    ensures |Trim(d.name)| > MaxNameLength ==> "name" in FormErrors(d) && FormErrors(d)["name"] == NameTooLong
  {
    BuildKeys(NameError(d.name), GameError(d.gameId), AvatarError(d.avatar), DescriptionError(d.description));
    NameErrorCases(d.name);
  }

  /** The avatar is required, its type is checked before its size, and a
      listed type of at most 5 MB passes. */
  lemma AvatarMessages(d: FormData)
    ensures "avatar" in FormErrors(d) <==>
      d.avatar.None? || d.avatar.value.mimeType !in AllowedTypes || d.avatar.value.size > MaxAvatarBytes
    ensures d.avatar.None? ==> "avatar" in FormErrors(d) && FormErrors(d)["avatar"] == AvatarRequired
    ensures d.avatar.Some? && d.avatar.value.mimeType !in AllowedTypes ==>
      "avatar" in FormErrors(d) && FormErrors(d)["avatar"] == AvatarWrongType
    ensures d.avatar.Some? && d.avatar.value.mimeType in AllowedTypes && d.avatar.value.size > MaxAvatarBytes ==>
      "avatar" in FormErrors(d) && FormErrors(d)["avatar"] == AvatarTooLarge
  {
    BuildKeys(NameError(d.name), GameError(d.gameId), AvatarError(d.avatar), DescriptionError(d.description));
  }

  /** The game is required, the untrimmed description is at most 200
      characters, only the four keys appear, every entry has a message, and
      the record is empty exactly when every check passes. */
  lemma FormErrorsSpec(d: FormData)
    ensures "game_id" in FormErrors(d) <==> d.gameId == ""
    ensures "game_id" in FormErrors(d) ==> FormErrors(d)["game_id"] == GameRequired
    ensures "description" in FormErrors(d) <==> |d.description| > MaxDescriptionLength
    ensures "description" in FormErrors(d) ==> FormErrors(d)["description"] == DescriptionTooLong
    ensures forall k :: k in FormErrors(d) ==> IsFieldKey(k) && FormErrors(d)[k] != ""
    ensures FormErrors(d) == map[] <==>
      MinNameLength <= |Trim(d.name)| <= MaxNameLength && d.gameId != ""
      && d.avatar.Some? && d.avatar.value.mimeType in AllowedTypes && d.avatar.value.size <= MaxAvatarBytes
      && |d.description| <= MaxDescriptionLength
  {
    BuildKeys(NameError(d.name), GameError(d.gameId), AvatarError(d.avatar), DescriptionError(d.description));
    NameErrorCases(d.name);
    var m := FormErrors(d);
    forall k | k in m
      ensures m[k] != ""
    {
      assert k == "name" || k == "game_id" || k == "avatar" || k == "description";
    }
  }

  /** `formData.description.trim() || undefined` */
  function OptionalText(s: string): (r: Option<string>)
    ensures r.None? <==> AllSpace(s)
    ensures r.Some? ==> r.value == Trim(s) && r.value != ""
  {
    TrimEmptyIffAllSpace(s);
    if Trim(s) == "" then None else Some(Trim(s))
  }

  /** The data handed to `onSubmit`. */
  function Payload(d: FormData): Teams.CreateTeamData
  {
    Teams.CreateTeamData(Trim(d.name), d.gameId, d.avatar, OptionalText(d.description))
  }

  lemma TrimNoLonger(s: string)
    ensures |Trim(s)| <= |s|
  {
  }

  /** What a validated form submits: a trimmed name of 2 to 50 characters,
      the chosen game and avatar, and a description that is either absent
      or trimmed, non-empty and at most 200 characters. */
  lemma PayloadOfValidForm(d: FormData)
    requires FormErrors(d) == map[]
    ensures var p := Payload(d);
      && MinNameLength <= |p.name| <= MaxNameLength && p.name == Trim(d.name)
      && p.gameId == d.gameId && p.gameId != ""
      && p.avatar == d.avatar && p.avatar.Some?
      && (p.description.None? <==> AllSpace(d.description))
      && (p.description.Some? ==> p.description.value == Trim(d.description) && 0 < |p.description.value| <= MaxDescriptionLength)
  {
    FormErrorsSpec(d);
    TrimNoLonger(d.description);
  }

  /** The multipart form the service builds from a validated form always
      carries the avatar, and carries a description exactly when the
      trimmed description is not empty. */
  lemma SubmittedForm(d: FormData)
    requires FormErrors(d) == map[]
    ensures "avatar" in Teams.FormKeys(Teams.TeamForm(Payload(d)))
    ensures "description" in Teams.FormKeys(Teams.TeamForm(Payload(d))) <==> !AllSpace(d.description)
  {
    FormErrorsSpec(d);
    Teams.TeamFormFields(Payload(d));
  }

  /** The submit button: disabled while loading or while the raw name, the
      game or the avatar is missing. */
  function SubmitDisabled(isLoading: bool, d: FormData): (disabled: bool)
    ensures !disabled <==> !isLoading && d.name != "" && d.gameId != "" && d.avatar.Some?
  {
    isLoading || d.name == "" || d.gameId == "" || d.avatar.None?
  }

  /** The button looks at the untrimmed name, so a name of blanks enables
      it while validation still rejects it. */
  lemma BlankNameEnablesSubmit(f: File)
    requires f.mimeType == "image/png" && f.size <= MaxAvatarBytes
    ensures var d := FormData(" ", "1", "", Some(f));
      !SubmitDisabled(false, d) && "name" in FormErrors(d) && FormErrors(d)["name"] == NameRequired
  {
    var d := FormData(" ", "1", "", Some(f));
    assert AllSpace(d.name);
    NameMessages(d);
  }

  /** The body of `validateForm`: each check in turn, writing its
      field's message when it failed. */
  method CollectErrors(nameError: Option<string>, gameError: Option<string>, avatarError: Option<string>, descriptionError: Option<string>)
    returns (newErrors: map<string, string>)
    ensures newErrors == Build(nameError, gameError, avatarError, descriptionError)
  {
    newErrors := map[];
    if nameError.Some? {
      newErrors := newErrors["name" := nameError.value];
    }
    if gameError.Some? {
      newErrors := newErrors["game_id" := gameError.value];
    }
    if avatarError.Some? {
      newErrors := newErrors["avatar" := avatarError.value];
    }
    if descriptionError.Some? {
      newErrors := newErrors["description" := descriptionError.value];
    }
  }

  /** The dialog's state. */
  class CreateForm {
    var formData: FormData
    var errors: map<string, string>

    /** Only the four field keys are ever recorded. */
    ghost predicate Valid()
      reads this
    {
      forall k :: k in errors ==> IsFieldKey(k)
    }

    constructor ()
      ensures Valid()
      ensures formData == EmptyForm && errors == map[]
    {
      formData := EmptyForm;
      errors := map[];
    }

    /** `validateForm`: the record is rebuilt from scratch, field by field,
        and the form is valid exactly when it is empty. */
    method ValidateForm() returns (valid: bool)
      modifies this
      ensures Valid()
      ensures errors == FormErrors(formData)
      ensures valid <==> errors == map[]
      ensures formData == old(formData)
    {
      var newErrors := CollectErrors(NameError(formData.name), GameError(formData.gameId),
                                     AvatarError(formData.avatar), DescriptionError(formData.description));
      FormErrorsSpec(formData);
      errors := newErrors;
      valid := |errors.Keys| == 0;
    }

    /** `handleSubmit`: validates, and hands the normalised payload to
        `onSubmit` exactly when the form is valid. */
    method HandleSubmit() returns (submitted: Option<Teams.CreateTeamData>)
      modifies this
      ensures Valid()
      ensures errors == FormErrors(formData) && formData == old(formData)
      ensures submitted.Some? <==> errors == map[]
      ensures submitted.Some? ==> submitted.value == Payload(formData)
    {
      var valid := ValidateForm();
      if valid {
        submitted := Some(Payload(formData));
      } else {
        submitted := None;
      }
    }

    /** `handleInputChange`: the field takes the value; an error it had is
        blanked to `''`, not deleted, so the key set stays the same. */
    method InputChange(input: Input)
      requires Valid()
      modifies this
      ensures Valid()
      ensures formData == Apply(old(formData), input)
      ensures errors.Keys == old(errors).Keys
      ensures input.Target().Key() in errors ==> errors[input.Target().Key()] == ""
      ensures forall k :: k in errors && k != input.Target().Key() ==> errors[k] == old(errors)[k]
    {
      formData := Apply(formData, input);
      var key := input.Target().Key();
      if key in errors && errors[key] != "" {
        errors := errors[key := ""];
      }
    }
  }
}
