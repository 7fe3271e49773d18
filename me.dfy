/** fe/src/pages/Me.jsx: the profile page. Its `submit` checks the form on
    the client, building an error map field by field, and sends the form
    as multipart data only when the map stays empty. */
module Me {
  import opened Common

  /** The chosen avatar file: its MIME type and its size in bytes. */
  datatype AvatarFile = AvatarFile(mimeType: string, size: nat)

  const MinNameLength: nat := 3
  const MaxBioLength: nat := 500
  const MaxAvatarSize: nat := 2 * 1024 * 1024
  const ImagePrefix: string := "image/"

  const NameTooShort: string := "Nama minimal 3 karakter"
  const BioTooLong: string := "Bio maksimal 500 karakter"
  const NotAnImage: string := "Avatar harus berupa gambar"
  const AvatarTooLarge: string := "Ukuran avatar maksimal 2MB"

  /** The client-side checks of `submit`, in the order the page runs them:
      the name, the bio, then the type and the size of the avatar, where a
      size error overwrites a type error. */
  method ValidateProfile(displayName: string, bio: string, avatar: Option<AvatarFile>)
    returns (errors: map<string, string>)
    ensures errors.Keys <= {"display_name", "bio", "avatar"}
    ensures "display_name" in errors <==> |Trim(displayName)| < MinNameLength
    ensures "display_name" in errors ==> errors["display_name"] == NameTooShort
    ensures "bio" in errors <==> |bio| > MaxBioLength
    ensures "bio" in errors ==> errors["bio"] == BioTooLong
    ensures "avatar" in errors <==>
              avatar.Some? && (!(ImagePrefix <= avatar.value.mimeType) || avatar.value.size > MaxAvatarSize)
    ensures "avatar" in errors && avatar.value.size > MaxAvatarSize ==> errors["avatar"] == AvatarTooLarge
    ensures "avatar" in errors && avatar.value.size <= MaxAvatarSize ==> errors["avatar"] == NotAnImage
  {
    errors := map[];
    if displayName == "" || |Trim(displayName)| < MinNameLength {
      errors := errors["display_name" := NameTooShort];
    }
    if bio != "" && |bio| > MaxBioLength {
      errors := errors["bio" := BioTooLong];
    }
    if avatar.Some? {
      if !(ImagePrefix <= avatar.value.mimeType) {
        errors := errors["avatar" := NotAnImage];
      }
      if avatar.value.size > MaxAvatarSize {
        errors := errors["avatar" := AvatarTooLarge];
      }
    }
  }

  /** One part of the multipart form. */
  datatype FormValue = Text(text: string) | File(file: AvatarFile)

  /** `submit` after validation: the error map the page shows, and the form
      it sends, which is absent exactly when there is an error. The form
      always has `display_name` and `bio` and has `avatar` only for a chosen
      file. */
  method Submit(displayName: string, bio: string, avatar: Option<AvatarFile>)
    returns (errors: map<string, string>, form: Option<seq<(string, FormValue)>>)
    ensures form.Some? <==> |Trim(displayName)| >= MinNameLength && |bio| <= MaxBioLength
                            && (avatar.Some? ==> ImagePrefix <= avatar.value.mimeType && avatar.value.size <= MaxAvatarSize)
    ensures form.Some? <==> errors == map[]
    ensures form.Some? ==>
              && |form.value| == (if avatar.Some? then 3 else 2)
              && form.value[0] == ("display_name", Text(displayName))
              && form.value[1] == ("bio", Text(bio))
              && (avatar.Some? ==> form.value[2] == ("avatar", File(avatar.value)))
  {
    errors := ValidateProfile(displayName, bio, avatar);
    if |errors| != 0 {
      assert errors != map[];
      return errors, None;
    }
    assert errors.Keys == {};
    var fd := [("display_name", Text(displayName))];
    fd := fd + [("bio", Text(bio))];
    if avatar.Some? {
      fd := fd + [("avatar", File(avatar.value))];
    }
    form := Some(fd);
  }

  /** `@{me.username || me.email.split("@")[0]}`. */
  function Handle(username: Option<string>, email: string): (r: string)
    ensures TruthyStr(username) ==> r == username.value
    ensures !TruthyStr(username) ==> r <= email && '@' !in r && (|r| < |email| ==> email[|r|] == '@')
  {
    if TruthyStr(username) then username.value
    else
      SplitHeadIsBeforeFirst(email, '@');
      Split(email, '@')[0]
  }

  /** An email with no "@" in it is its own handle. */
  lemma HandleWithoutAt(email: string)
    requires '@' !in email
    ensures Handle(None, email) == email
  {
  }
}
