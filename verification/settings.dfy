/** The settings page (`Settings`): loading the profile, replacing the avatar
    in storage and saving the name fields. Storage and database calls are
    inputs: their errors, and the public URL storage hands out for a path. */
module Settings {
  import opened Wrappers
  import opened Text

  /** The page's copy of the profile; the two name fields are never null here. */
  datatype Profile = Profile(username: string, fullName: string, avatarUrl: Option<string>)

  datatype Page = Page(profile: Profile, uploading: bool, saving: bool)

  const Initial := Page(Profile("", "", None), false, false)

  /** The row `fetchProfile` reads, whose columns may be null. */
  datatype ProfileRow = ProfileRow(username: Option<string>, fullName: Option<string>, avatarUrl: Option<string>)

  const LoadFailed := "Fehler beim Laden des Profils"

  /** `x || ""` on a nullable string. */
  function OrEmpty(x: Option<string>): string {
    x.GetOr("")
  }

  /** `fetchProfile`: a failed query reports an error, an absent row changes
      nothing, and a found row replaces the profile with null names read as "". */
  function FetchProfile(p: Page, answer: Result<Option<ProfileRow>, string>): (r: (Page, Option<string>))
    ensures r.0.uploading == p.uploading && r.0.saving == p.saving
    ensures r.1.Some? <==> answer.Err?
    ensures r.1.Some? ==> r.1.value == LoadFailed
    ensures (answer.Err? || answer.value.None?) ==> r.0 == p
    ensures answer.Ok? && answer.value.Some? ==>
              var row := answer.value.value;
              r.0.profile.avatarUrl == row.avatarUrl &&
              (row.username.Some? ==> r.0.profile.username == row.username.value) &&
              (row.username.None? ==> r.0.profile.username == "") &&
              (row.fullName.Some? ==> r.0.profile.fullName == row.fullName.value) &&
              (row.fullName.None? ==> r.0.profile.fullName == "")
  {
    match answer
    case Err(_) => (p, Some(LoadFailed))
    case Ok(None) => (p, None)
    case Ok(Some(row)) =>
      (p.(profile := Profile(OrEmpty(row.username), OrEmpty(row.fullName), row.avatarUrl)), None)
  }

  /** `file.name.split(".").pop()`: the text after the last dot, or the whole
      name when it has none. */
  function Extension(fileName: string): (r: string)
    ensures '.' !in r
    ensures r == fileName || (|r| < |fileName| && fileName == fileName[..|fileName| - |r| - 1] + ['.'] + r)
  {
    var r := AfterLast(fileName, '.');
    assert |r| < |fileName| ==> fileName == fileName[..|fileName| - |r| - 1] + ['.'] + r;
    r
  }

  /** The storage path of an uploaded avatar: `<uid>/avatar.<ext>`. */
  function UploadPath(uid: string, fileName: string): string {
    uid + "/avatar." + Extension(fileName)
  }

  /** The path removed before an upload: the user's folder plus the last
      `/`-segment of the stored URL, when the URL is set and that segment is
      not empty. */
  function OldAvatarPath(uid: string, avatarUrl: Option<string>): (r: Option<string>)
    ensures r.Some? <==> avatarUrl.Some? && avatarUrl.value != "" && AfterLast(avatarUrl.value, '/') != ""
    ensures r.Some? ==> exists seg :: r.value == uid + "/" + seg && '/' !in seg && seg != ""
    ensures r.Some? ==> r.value == uid + "/" + AfterLast(avatarUrl.value, '/')
  {
    if avatarUrl.Some? && avatarUrl.value != "" then
      var seg := AfterLast(avatarUrl.value, '/');
      if seg != "" then Some(uid + "/" + seg) else None
    else None
  }

  /** When the stored URL ends in a path this page uploaded, and the file's
      extension has no `/`, the removal targets exactly that path: replacing an
      avatar deletes the previous upload. */
  lemma RemovalTargetsPreviousUpload(uid: string, fileName: string, urlPrefix: string)
    requires '/' !in Extension(fileName)
    ensures OldAvatarPath(uid, Some(urlPrefix + UploadPath(uid, fileName))) == Some(UploadPath(uid, fileName))
  {
    var ext := Extension(fileName);
    var tail := "avatar." + ext;
    var path := UploadPath(uid, fileName);
    assert '/' !in tail by {
      assert forall i :: 0 <= i < |"avatar."| ==> "avatar."[i] != '/';
    }
    assert path == uid + "/" + tail by {
      assert "/avatar." == "/" + "avatar.";
    }
    var url := urlPrefix + path;
    assert url == (urlPrefix + uid) + ['/'] + tail;
    AfterLastSeparator(urlPrefix + uid, '/', tail);
  }

  /** What one run of `handleAvatarUpload` did: the storage path removed, the
      path uploaded, the URL written to the profile row, and the message shown. */
  datatype UploadRun = UploadRun(page: Page, removed: Option<string>, uploaded: Option<string>,
                                 rowUpdate: Option<string>, error: Option<string>)

  const UploadFailedPrefix := "Fehler beim Hochladen: "

  /** `handleAvatarUpload`. Without a file nothing happens. Otherwise the old
      avatar is removed first (its outcome is ignored), then the file is
      uploaded; only after the upload and the row update both succeed does the
      page show the new public URL. `uploading` ends on every path. */
  function AvatarUpload(p: Page, uid: string, fileName: Option<string>, uploadError: Option<string>,
                        publicUrl: string -> string, updateError: Option<string>): (r: UploadRun)
    ensures !r.page.uploading && r.page.saving == p.saving
    ensures r.page.profile.username == p.profile.username && r.page.profile.fullName == p.profile.fullName
    ensures fileName.None? ==> r == UploadRun(p.(uploading := false), None, None, None, None)
    ensures fileName.Some? ==>
              r.removed == OldAvatarPath(uid, p.profile.avatarUrl) && r.uploaded == Some(UploadPath(uid, fileName.value))
    ensures r.rowUpdate.Some? <==> fileName.Some? && uploadError.None?
    ensures r.rowUpdate.Some? ==> r.rowUpdate.value == publicUrl(UploadPath(uid, fileName.value))
    ensures r.page.profile.avatarUrl != p.profile.avatarUrl ==>
              r.rowUpdate.Some? && updateError.None? && r.page.profile.avatarUrl == r.rowUpdate
    ensures fileName.Some? && uploadError.None? && updateError.None? ==>
              r.page.profile.avatarUrl == Some(publicUrl(UploadPath(uid, fileName.value))) && r.error.None?
    ensures fileName.Some? && uploadError.Some? ==> r.error == Some(UploadFailedPrefix + uploadError.value)
    ensures fileName.Some? && uploadError.None? && updateError.Some? ==>
              r.error == Some(UploadFailedPrefix + updateError.value)
  {
    match fileName
    case None => UploadRun(p.(uploading := false), None, None, None, None)
    case Some(name) =>
      var path := UploadPath(uid, name);
      var removed := OldAvatarPath(uid, p.profile.avatarUrl);
      if uploadError.Some? then
        UploadRun(p.(uploading := false), removed, Some(path), None, Some(UploadFailedPrefix + uploadError.value))
      else
        var url := publicUrl(path);
        if updateError.Some? then
          UploadRun(p.(uploading := false), removed, Some(path), Some(url), Some(UploadFailedPrefix + updateError.value))
        else
          UploadRun(p.(uploading := false, profile := p.profile.(avatarUrl := Some(url))), removed, Some(path), Some(url), None)
  }

  /** The old avatar is removed before the upload is tried, so a failed upload
      leaves the page (and the row) pointing at a file that was just removed. */
  lemma FailedUploadAfterRemoval(p: Page, uid: string, fileName: string, uploadError: string,
                                 publicUrl: string -> string, updateError: Option<string>)
    requires OldAvatarPath(uid, p.profile.avatarUrl).Some?
    ensures var r := AvatarUpload(p, uid, Some(fileName), Some(uploadError), publicUrl, updateError);
      r.removed.Some? && r.rowUpdate.None? && r.page.profile.avatarUrl == p.profile.avatarUrl
  {
  }

  /** The row update `handleSaveProfile` sends: both name fields of the page. */
  datatype NamesUpdate = NamesUpdate(userId: string, username: string, fullName: string)

  const SaveFailedPrefix := "Fehler beim Speichern: "

  /** `handleSaveProfile` up to the call. */
  function SavePressed(p: Page, uid: string): (r: (Page, NamesUpdate))
    ensures r.0 == p.(saving := true)
    ensures r.1.userId == uid && r.1.username == p.profile.username && r.1.fullName == p.profile.fullName
  {
    (p.(saving := true), NamesUpdate(uid, p.profile.username, p.profile.fullName))
  }

  /** The save settles: an error is reported with its message; the page's
      profile is kept either way and `saving` ends. */
  function SaveSettled(p: Page, updateError: Option<string>): (r: (Page, Option<string>))
    ensures r.0 == p.(saving := false)
    ensures r.1.Some? <==> updateError.Some?
    ensures r.1.Some? ==> r.1.value == SaveFailedPrefix + updateError.value
  {
    (p.(saving := false), if updateError.Some? then Some(SaveFailedPrefix + updateError.value) else None)
  }

  /** Saving writes back exactly the names the page loaded, so a load followed
      by a save stores null names as "". */
  lemma SaveAfterLoadStoresLoadedNames(p: Page, uid: string, row: ProfileRow)
    ensures var loaded := FetchProfile(p, Result.Ok(Some(row))).0;
      SavePressed(loaded, uid).1 == NamesUpdate(uid, row.username.GetOr(""), row.fullName.GetOr(""))
  {
  }
}
