/**
 * The admin's profile form: the schema a name and an optional photo must
 * satisfy, the multipart payload sent, the loading flag around the request,
 * and the photo picker.
 *
 * A chosen file is represented by its name, and the object URL made for
 * its preview is the parameter `objectUrl`.
 */
module AdminProfile {
  import opened Wrappers
  import opened Text

  /** The value held for the photo field. */
  datatype PhotoValue =
    | NoPhoto               // never set (`undefined`)
    | FalsyPhoto            // another falsy value
    | FilePhoto(name: string)
    | OtherPhoto            // a truthy value that is not a `File`

  const NameTooShort := "Name must be at least 2 characters"
  const NameTooLong := "Name must be less than 50 characters"
  const InvalidFile := "Invalid file"

  /** The issues the schema reports, in its order: name first, then photo. */
  function ProfileIssues(name: string, photo: PhotoValue): seq<string>
  {
    (if Utf16Length(name) < 2 then [NameTooShort] else []) +
    (if Utf16Length(name) > 50 then [NameTooLong] else []) +
    (if photo.OtherPhoto? then [InvalidFile] else [])
  }

  predicate ProfileValid(name: string, photo: PhotoValue)
  {
    ProfileIssues(name, photo) == []
  }

  /**
   * A profile is accepted iff the name is 2 to 50 long, both bounds
   * included, and the photo is absent, falsy or a file.
   */
  lemma ProfileValidIff(name: string, photo: PhotoValue)
    ensures ProfileValid(name, photo) <==> 2 <= Utf16Length(name) <= 50 && !photo.OtherPhoto?
    ensures Utf16Length(name) == 50 ==> (ProfileValid(name, photo) <==> !photo.OtherPhoto?)
  {
  }

  /**
   * The bounds count UTF-16 code units, as `length` does: one emoji beyond
   * U+FFFF is a single character but two units, so it is a long enough name.
   */
  lemma AstralName()
    ensures |"\U{1F600}"| == 1 && ProfileValid("\U{1F600}", NoPhoto)
  {
    assert Utf16Length("\U{1F600}") == 2 + Utf16Length([]);
  }

  /** One entry of the multipart body. */
  datatype Entry = TextEntry(key: string, text: string) | FileEntry(key: string, file: string)

  /** The body: `fullName` always, then `img` when a file was chosen. */
  function Payload(name: string, photo: PhotoValue): (r: seq<Entry>)
    requires ProfileValid(name, photo)
  {
    [TextEntry("fullName", name)] + (if photo.FilePhoto? then [FileEntry("img", photo.name)] else [])
  }

  /** The name is always sent first; the photo is sent iff one was chosen, and then second. */
  lemma PayloadShape(name: string, photo: PhotoValue)
    requires ProfileValid(name, photo)
    ensures var p := Payload(name, photo);
      && p[0] == TextEntry("fullName", name)
      && (photo.FilePhoto? <==> |p| == 2)
      && (photo.FilePhoto? ==> p[1] == FileEntry("img", photo.name))
      && (forall i :: 0 <= i < |p| ==> (p[i].key == "img" <==> i == 1))
  {
  }

  /** The state of the profile form. */
  class ProfileForm {
    var name: string
    var photo: PhotoValue
    var preview: Option<string>
    var loading: bool

    constructor ()
      ensures name == "" && photo == NoPhoto && preview.None? && !loading
    {
      name, photo, preview, loading := "", NoPhoto, None, false;
    }

    /** `handlePhotoChange`: no file keeps the photo and the preview; a file sets both. */
    method PhotoChange(file: Option<string>, objectUrl: string)
      modifies this`photo, this`preview
      ensures file.None? ==> photo == old(photo) && preview == old(preview)
      ensures file.Some? ==> photo == FilePhoto(file.value) && preview == Some(objectUrl)
    {
      if file.None? {
        return;
      }
      photo := FilePhoto(file.value);
      preview := Some(objectUrl);
    }

    /**
     * A submit: an invalid form sends nothing; a valid one sends the payload
     * with `loading` set (`loadingWhileSent`), and `loading` is cleared
     * afterwards whatever the answer.
     */
    method Submit() returns (sent: Option<seq<Entry>>, loadingWhileSent: bool)
      modifies this`loading
      ensures sent.Some? <==> ProfileValid(name, photo)
      ensures sent.Some? ==> sent.value == Payload(name, photo) && loadingWhileSent
      ensures sent.None? ==> loading == old(loading)
      ensures sent.Some? ==> !loading
    {
      if !ProfileValid(name, photo) {
        return None, loading;
      }
      loading := true;
      sent := Some(Payload(name, photo));
      loadingWhileSent := loading;
      loading := false;
    }
  }
}
