/** The state of the three-step "create a meme" wizard and its event
    handlers: image choice and upload checks, step navigation, tag editing and
    submission to the meme store. */
module CreateMemePage {
  import opened Wrappers
  import opened AuthContext
  import opened MemeContext
  import JsString

  /** Uploads above 2 MiB are refused. */
  const MaxUploadBytes: nat := 2 * 1024 * 1024

  /** What the handler reads of a chosen file. */
  datatype Upload = Upload(size: nat, mimeType: string)

  /** The outcome of `handleFileUpload`; the two refusals raise a toast. */
  datatype UploadCheck = NoFile | TooLarge | NotAnImage | Accepted

  /** The checks of `handleFileUpload`, size first, then type. */
  function CheckUpload(file: Option<Upload>): (r: UploadCheck)
    ensures r == NoFile <==> file.None?
    ensures r == TooLarge <==> file.Some? && file.value.size > MaxUploadBytes
    ensures r == NotAnImage <==>
      file.Some? && file.value.size <= MaxUploadBytes && !JsString.StartsWith(file.value.mimeType, "image/")
    ensures r == Accepted <==>
      file.Some? && file.value.size <= MaxUploadBytes && JsString.StartsWith(file.value.mimeType, "image/")
  {
    if file.None? then NoFile
    else if file.value.size > MaxUploadBytes then TooLarge
    else if !JsString.StartsWith(file.value.mimeType, "image/") then NotAnImage
    else Accepted
  }

  /** A tag as `handleAddTag` stores it, `tagInput.trim().toLowerCase()`:
      any non-blank input gives a tag, and only blank input gives nothing. */
  function NormalizeTag(input: string): (r: string)
    ensures var t := JsString.Trim(input);
      |r| == |t| && forall i :: 0 <= i < |r| ==> r[i] == JsString.LowerChar(t[i])
    ensures JsString.Trim(input) != [] ==> IsTag(r)
    ensures r == [] <==> JsString.Trim(input) == []
    ensures |r| <= |input|
  {
    JsString.ToLower(JsString.Trim(input))
  }

  /** A stored tag: non-empty, with no whitespace at either end and no
      capital letter, so `trim` and `toLowerCase` leave it as it is. */
  predicate IsTag(t: string) {
    && t != []
    && !JsString.IsWhitespace(t[0]) && !JsString.IsWhitespace(t[|t| - 1])
    && forall i :: 0 <= i < |t| ==> !JsString.IsUpper(t[i])
  }

  /** A tag is a fixed point of the normalisation. */
  lemma TagIsNormalized(t: string)
    requires IsTag(t)
    ensures JsString.Trim(t) == t && JsString.ToLower(t) == t && NormalizeTag(t) == t
  {
    JsString.TrimOfTrimmed(t);
    JsString.ToLowerOfLower(t);
  }

  /** The tag list the wizard maintains: tags only, none twice. */
  predicate TagsCanonical(tags: seq<string>) {
    && (forall i :: 0 <= i < |tags| ==> IsTag(tags[i]))
    && (forall i, j :: 0 <= i < j < |tags| ==> tags[i] != tags[j])
  }

  /** `tags.filter(tag => tag !== t)`: every occurrence of `t` goes, the rest
      stay in order (see `WithoutAppend`). */
  function Without(tags: seq<string>, t: string): (r: seq<string>)
    ensures t !in r
    ensures forall x :: x in r <==> x in tags && x != t
    ensures |r| <= |tags|
  {
    if tags == [] then []
    else (if tags[0] == t then [] else [tags[0]]) + Without(tags[1..], t)
  }

  lemma {:induction false} WithoutAppend(a: seq<string>, b: seq<string>, t: string)
    ensures Without(a + b, t) == Without(a, t) + Without(b, t)
  {
    if a == [] {
      assert a + b == b;
    } else {
      assert (a + b)[1..] == a[1..] + b;
      WithoutAppend(a[1..], b, t);
    }
  }

  /** Removing a tag keeps the list canonical. */
  lemma {:induction false} WithoutKeepsCanonical(tags: seq<string>, t: string)
    requires TagsCanonical(tags)
    ensures TagsCanonical(Without(tags, t))
  {
    if tags != [] {
      var rest := tags[1..];
      assert TagsCanonical(rest);
      WithoutKeepsCanonical(rest, t);
      var h := tags[0];
      assert h !in rest;
      if h != t {
        var r := [h] + Without(rest, t);
        assert h !in Without(rest, t);
        assert forall j :: 0 < j < |r| ==> r[j] == Without(rest, t)[j - 1];
      }
    }
  }

  /** Appending a tag that is not yet present keeps the list canonical. */
  lemma AppendKeepsCanonical(tags: seq<string>, t: string)
    requires TagsCanonical(tags) && IsTag(t) && t !in tags
    ensures TagsCanonical(tags + [t])
  {
    var r := tags + [t];
    forall i, j | 0 <= i < j < |r| ensures r[i] != r[j] {
      if j == |tags| {
        assert r[i] == tags[i];
      }
    }
  }

  /** JavaScript truthiness of the selected image: `null` and the empty
      string both count as "no image"; any other URL is an image. */
  predicate HasImage(img: Option<string>) {
    img.Some? && img.value != ""
  }

  /** What `handleSubmit` reports. */
  datatype SubmitOutcome = NeedImage | Created(meme: Meme) | Failed

  class CreateMemeWizard {
    var currentStep: int
    var selectedImage: Option<string>
    var uploadedImage: Option<string>
    var topText: string
    var bottomText: string
    var tags: seq<string>
    var tagInput: string

    ghost predicate Valid()
      reads this
    {
      TagsCanonical(tags)
    }

    constructor ()
      ensures Valid()
      ensures currentStep == 1 && selectedImage == None && uploadedImage == None
      ensures topText == "" && bottomText == "" && tags == [] && tagInput == ""
    {
      currentStep := 1;
      selectedImage := None;
      uploadedImage := None;
      topText := "";
      bottomText := "";
      tags := [];
      tagInput := "";
    }

    /** `handleImageSelect`: picking a template. */
    method SelectImage(imageUrl: string)
      modifies this`selectedImage
      ensures selectedImage == Some(imageUrl)
    {
      selectedImage := Some(imageUrl);
    }

    method SetTopText(text: string)
      modifies this`topText
      ensures topText == text
    {
      topText := text;
    }

    method SetBottomText(text: string)
      modifies this`bottomText
      ensures bottomText == text
    {
      bottomText := text;
    }

    /** The tag input's change handler. */
    method SetTagInput(text: string)
      modifies this`tagInput
      ensures tagInput == text
    {
      tagInput := text;
    }

    /** `handleFileUpload`: an accepted file becomes both the uploaded and
        the selected image (under the object URL made for it); a refused or
        missing file changes nothing. */
    method FileUpload(file: Option<Upload>, objectUrl: string) returns (check: UploadCheck)
      modifies this`uploadedImage, this`selectedImage
      ensures check == CheckUpload(file)
      ensures check == Accepted ==> uploadedImage == selectedImage == Some(objectUrl)
      ensures check != Accepted ==>
                uploadedImage == old(uploadedImage) && selectedImage == old(selectedImage)
    {
      if file.None? {
        return NoFile;
      }
      if file.value.size > MaxUploadBytes {
        return TooLarge;
      }
      if !JsString.StartsWith(file.value.mimeType, "image/") {
        return NotAnImage;
      }
      uploadedImage := Some(objectUrl);
      selectedImage := Some(objectUrl);
      check := Accepted;
    }

    /** `handleNextStep`: blocked on step 1 until an image is selected. */
    method NextStep() returns (blocked: bool)
      modifies this`currentStep
      ensures blocked <==> old(currentStep) == 1 && !HasImage(selectedImage)
      ensures currentStep == if blocked then old(currentStep) else old(currentStep) + 1
    {
      if currentStep == 1 && !HasImage(selectedImage) {
        return true;
      }
      currentStep := currentStep + 1;
      blocked := false;
    }

    /** `handlePrevStep`: one step back, with no lower bound of its own (the
        page only offers it on steps 2 and 3). */
    method PrevStep()
      modifies this`currentStep
      ensures currentStep == old(currentStep) - 1
    {
      currentStep := currentStep - 1;
    }

    /** `handleAddTag`: on Enter with a non-blank input, appends the
        normalised tag and clears the input, unless the tag is already there,
        in which case nothing changes. Any other key changes nothing. */
    method AddTag(key: string)
      requires Valid()
      modifies this`tags, this`tagInput
      ensures Valid()
      ensures var t := NormalizeTag(old(tagInput));
        if key == "Enter" && JsString.Trim(old(tagInput)) != [] && t !in old(tags) then
          tags == old(tags) + [t] && tagInput == ""
        else
          tags == old(tags) && tagInput == old(tagInput)
    {
      if key == "Enter" && JsString.Trim(tagInput) != [] {
        var t := NormalizeTag(tagInput);
        if t !in tags {
          AppendKeepsCanonical(tags, t);
          tags := tags + [t];
          tagInput := "";
        }
      }
    }

    /** `handleRemoveTag`. */
    method RemoveTag(tag: string)
      requires Valid()
      modifies this`tags
      ensures Valid()
      ensures tags == Without(old(tags), tag)
    {
      WithoutKeepsCanonical(tags, tag);
      tags := Without(tags, tag);
    }

    /** `handleSubmit`: without a selected image nothing is sent to the
        store; otherwise the image, both captions and the tags are passed to
        `createMeme` unchanged, and its failure is reported. */
    method Submit(store: MemeStore, user: Option<User>, freshId: string, now: int)
      returns (outcome: SubmitOutcome)
      modifies store
      ensures !HasImage(selectedImage) ==> outcome == NeedImage && store.memes == old(store.memes)
      ensures HasImage(selectedImage) && user.None? ==> outcome == Failed && store.memes == old(store.memes)
      ensures HasImage(selectedImage) && user.Some? ==>
        && outcome.Created?
        && outcome.meme == NewMeme(MemeDraft(selectedImage, Some(topText), Some(bottomText), Some(tags)),
                                   user.value, freshId, now)
        && outcome.meme.imageUrl == selectedImage.value
        && outcome.meme.topText == Some(topText) && outcome.meme.bottomText == Some(bottomText)
        && outcome.meme.tags == tags
        && store.memes == [outcome.meme] + old(store.memes)
      ensures store.activeTab == old(store.activeTab)
      ensures outcome.Created? ==> outcome.meme.imageUrl != ""
    {
      if !HasImage(selectedImage) {
        return NeedImage;
      }
      var draft := MemeDraft(selectedImage, Some(topText), Some(bottomText), Some(tags));
      var r := store.CreateMeme(user, draft, freshId, now);
      if r.Failure? {
        return Failed;
      }
      outcome := Created(r.value);
    }
  }
}
