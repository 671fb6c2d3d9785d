/** The four-step claim wizard and the photo staging list it mounts on its last
    step. The back end is abstract: each call to the claim API is recorded as a
    request, and its answer is passed in as a parameter. */
module FnolWizard {
  import opened Options
  import opened FnolForm

  /** A file the user picked, by identity. */
  datatype Photo = Photo(id: nat)

  /** An object URL created for a picked file; `url` is its serial number. */
  datatype Preview = Preview(url: nat, file: Photo)

  type ClaimId = string

  /** A call to the claim API. */
  datatype Request =
    | CreateClaim(data: Draft)
    | UploadPhoto(path: string, formField: string, photo: Photo)

  /** What the user sees once a submission is over. */
  datatype Notice = Redirect(url: string) | Alert(message: string)

  const FailureMessage := "Failed to submit claim. Please try again."

  function PhotosPath(id: ClaimId): string
  {
    "/api/v1/claims/" + id + "/photos"
  }

  function SuccessUrl(id: ClaimId): string
  {
    "/?claim_id=" + id + "&status=submitted"
  }

  // ---------------------------------------------------------------------------
  // Button guards

  /** Back is disabled on the first step and while a submission runs. */
  predicate BackEnabled(step: int, isSubmitting: bool)
  {
    !(step == 1 || isSubmitting)
  }

  /** Next is shown before the last step; Submit replaces it there. */
  predicate NextShown(step: int)
  {
    step < TotalSteps
  }

  predicate SubmitEnabled(isSubmitting: bool)
  {
    !isSubmitting
  }

  // ---------------------------------------------------------------------------
  // The submission protocol

  /** One upload per photo, in the order of the list, each to the claim's photo
      route with the file under the form field "file". */
  function UploadRequests(id: ClaimId, photos: seq<Photo>): (rs: seq<Request>)
    ensures |rs| == |photos|
    ensures forall i :: 0 <= i < |rs| ==> rs[i] == UploadPhoto(PhotosPath(id), "file", photos[i])
  {
    if photos == [] then []
    else UploadRequests(id, photos[..|photos| - 1]) + [UploadPhoto(PhotosPath(id), "file", photos[|photos| - 1])]
  }

  /** The requests a submission issues: the creation, then the uploads when the
      creation returned an id. */
  function SubmitRequests(data: Draft, photos: seq<Photo>, created: Option<ClaimId>): seq<Request>
  {
    [CreateClaim(data)] + (if created.Some? then UploadRequests(created.value, photos) else [])
  }

  /** What a submission ends with. */
  function SubmitNotice(created: Option<ClaimId>, uploadOk: seq<bool>): Notice
  {
    if created.Some? && false !in uploadOk then Redirect(SuccessUrl(created.value))
    else Alert(FailureMessage)
  }

  /** Exactly one creation request, first, carrying the draft; after it either no
      request or one upload per staged photo to the returned claim's route. */
  lemma SubmitTrace(data: Draft, photos: seq<Photo>, created: Option<ClaimId>)
    ensures var rs := SubmitRequests(data, photos, created);
      && |rs| == 1 + (if created.Some? then |photos| else 0)
      && rs[0] == CreateClaim(data)
      && (forall i | 0 <= i < |rs| :: rs[i].CreateClaim? <==> i == 0)
      && (forall i | 1 <= i < |rs| :: rs[i] == UploadPhoto(PhotosPath(created.value), "file", photos[i - 1]))
  {
  }

  /** The redirect happens exactly when the creation returned an id and every
      upload succeeded; every other ending is the same alert. */
  lemma RedirectIffAllSucceeded(created: Option<ClaimId>, uploadOk: seq<bool>)
    ensures SubmitNotice(created, uploadOk).Redirect? <==>
      created.Some? && forall i | 0 <= i < |uploadOk| :: uploadOk[i]
    ensures SubmitNotice(created, uploadOk).Redirect? ==>
      SubmitNotice(created, uploadOk).url == SuccessUrl(created.value)
    ensures !SubmitNotice(created, uploadOk).Redirect? ==>
      SubmitNotice(created, uploadOk) == Alert(FailureMessage)
  {
  }

  /** The claim id can be read back from the redirect target and the upload route. */
  lemma AddressesNameTheClaim(a: ClaimId, b: ClaimId)
    ensures SuccessUrl(a) == SuccessUrl(b) ==> a == b
    ensures PhotosPath(a) == PhotosPath(b) ==> a == b
  {
    if SuccessUrl(a) == SuccessUrl(b) {
      assert a == SuccessUrl(a)[11..|SuccessUrl(a)| - 17];
    }
    if PhotosPath(a) == PhotosPath(b) {
      assert a == PhotosPath(a)[15..|PhotosPath(a)| - 7];
    }
  }

  // ---------------------------------------------------------------------------
  // Removing by index

  /** `s.filter((_, i) => i !== index)`. */
  function Without<T>(s: seq<T>, index: int): seq<T>
    decreases |s|
  {
    if s == [] then []
    else (if index == 0 then [] else [s[0]]) + Without(s[1..], index - 1)
  }

  /** In range exactly entry `index` goes and the rest keep their order; out of
      range nothing goes. */
  lemma {:induction false} WithoutIndex<T>(s: seq<T>, index: int)
    ensures 0 <= index < |s| ==> Without(s, index) == s[..index] + s[index + 1..]
    ensures !(0 <= index < |s|) ==> Without(s, index) == s
    decreases |s|
  {
    if s != [] {
      WithoutIndex(s[1..], index - 1);
      if index > 0 && index < |s| {
        assert s[..index] == [s[0]] + s[1..][..index - 1];
        assert s[index + 1..] == s[1..][index..];
      } else if index != 0 {
        assert s == [s[0]] + s[1..];
      }
    }
  }

  /** The previews `createObjectURL` hands out for new files, numbered from `start`. */
  function NewPreviews(start: nat, files: seq<Photo>): (ps: seq<Preview>)
    ensures |ps| == |files|
    ensures forall i :: 0 <= i < |ps| ==> ps[i] == Preview(start + i, files[i])
  {
    if files == [] then []
    else NewPreviews(start, files[..|files| - 1]) + [Preview(start + |files| - 1, files[|files| - 1])]
  }

  // ---------------------------------------------------------------------------
  // The wizard

  class Wizard {
    var step: int
    var photos: seq<Photo>
    var isSubmitting: bool
    var draft: Draft
    /** The photo step's component, present while it is mounted. */
    var uploader: PhotoUploader?
    /** Every API request issued, in order. */
    var requests: seq<Request>
    /** Every redirect or alert shown, in order. */
    var notices: seq<Notice>

    /** The step is one of the four; every step already left passed its gate; the
        photo component is mounted exactly on the last step, reports to this wizard
        and keeps its own invariant. */
    ghost predicate Valid()
      reads this, uploader
    {
      && 1 <= step <= TotalSteps
      && (forall s | 1 <= s < step :: StepValid(draft, s))
      && (uploader != null <==> step == TotalSteps)
      && (uploader != null ==> uploader.parent == this && uploader.Valid())
    }

    constructor()
      ensures Valid()
      ensures step == 1 && photos == [] && !isSubmitting
      ensures draft == EmptyDraft && uploader == null && requests == [] && notices == []
    {
      step := 1;
      photos := [];
      isSubmitting := false;
      draft := EmptyDraft;
      uploader := null;
      requests := [];
      notices := [];
    }

    /** `nextStep`: advance by one when the current step's fields pass their rules. */
    method NextStep()
      requires Valid() && NextShown(step)
      modifies this
      ensures Valid()
      ensures step == if StepValid(old(draft), old(step)) then old(step) + 1 else old(step)
      ensures photos == old(photos) && isSubmitting == old(isSubmitting) && draft == old(draft)
      ensures requests == old(requests) && notices == old(notices)
      ensures step < TotalSteps ==> uploader == old(uploader)
      ensures step == TotalSteps ==>
        fresh(uploader) && uploader.Valid() && uploader.photos == [] && uploader.previews == [] && uploader.revoked == []
    {
      var isStepValid := StepValid(draft, step);
      if isStepValid {
        step := step + 1;
        if step == TotalSteps {
          uploader := new PhotoUploader(this);
        }
      }
    }

    /** `prevStep`: go back one step without validating; leaving the photo step
        unmounts its component. */
    method PrevStep()
      requires Valid() && BackEnabled(step, isSubmitting)
      modifies this
      ensures Valid()
      ensures step == old(step) - 1 && uploader == null
      ensures photos == old(photos) && isSubmitting == old(isSubmitting) && draft == old(draft)
      ensures requests == old(requests) && notices == old(notices)
    {
      step := step - 1;
      uploader := null;
    }

    /** Typing into a text input of the step on screen. */
    method EditText(f: Field, s: string)
      requires Valid() && step < TotalSteps && f != VehicleYear && StepOf(f) == step
      modifies this
      ensures Valid()
      ensures draft == SetText(old(draft), f, s)
      ensures step == old(step) && photos == old(photos) && isSubmitting == old(isSubmitting)
      ensures uploader == old(uploader) && requests == old(requests) && notices == old(notices)
    {
      ghost var before := draft;
      draft := SetText(draft, f, s);
      forall k | 1 <= k < step
        ensures StepValid(draft, k)
      {
        EditKeepsOtherSteps(before, f, s, k);
      }
    }

    /** Typing into the year input, shown on step 3. */
    method EditYear(y: Option<int>)
      requires Valid() && step == 3
      modifies this
      ensures Valid()
      ensures draft == old(draft).(vehicleYear := y)
      ensures step == old(step) && photos == old(photos) && isSubmitting == old(isSubmitting)
      ensures uploader == old(uploader) && requests == old(requests) && notices == old(notices)
    {
      ghost var before := draft;
      draft := draft.(vehicleYear := y);
      YearKeepsOtherSteps(before, y, 1);
      YearKeepsOtherSteps(before, y, 2);
    }

    /** `onPhotosSelected`: the list the photo component reports replaces the
        wizard's own. */
    method OnPhotosSelected(files: seq<Photo>)
      requires Valid()
      modifies this
      ensures Valid()
      ensures photos == files
      ensures step == old(step) && isSubmitting == old(isSubmitting) && draft == old(draft)
      ensures uploader == old(uploader) && requests == old(requests) && notices == old(notices)
    {
      photos := files;
    }

    /** `onSubmit`: create the claim, then upload every staged photo to it, then
        redirect; any failure shows the alert instead. `created` is the creation
        call's answer (`None` when it fails) and `uploadOk[i]` that of upload `i`. */
    method Submit(created: Option<ClaimId>, uploadOk: seq<bool>)
      requires Valid() && step == TotalSteps && SubmitEnabled(isSubmitting)
      requires |uploadOk| == |photos|
      modifies this
      ensures Valid()
      ensures forall s | 1 <= s <= 3 :: StepValid(draft, s)
      ensures requests == old(requests) + SubmitRequests(old(draft), old(photos), created)
      ensures notices == old(notices) + [SubmitNotice(created, uploadOk)]
      ensures !isSubmitting
      ensures step == old(step) && photos == old(photos) && draft == old(draft) && uploader == old(uploader)
    {
      isSubmitting := true;
      requests := requests + [CreateClaim(draft)];
      var notice := Alert(FailureMessage);
      if created.Some? {
        var claimId := created.value;
        var allOk := true;
        if |photos| > 0 {
          var i := 0;
          while i < |photos|
            invariant 0 <= i <= |photos|
            invariant photos == old(photos) && draft == old(draft) && step == old(step)
            invariant uploader == old(uploader) && notices == old(notices) && isSubmitting
            invariant requests == old(requests) + [CreateClaim(draft)] + UploadRequests(claimId, photos[..i])
            invariant allOk == (false !in uploadOk[..i])
          {
            assert photos[..i + 1][..i] == photos[..i];
            assert uploadOk[..i + 1] == uploadOk[..i] + [uploadOk[i]];
            requests := requests + [UploadPhoto(PhotosPath(claimId), "file", photos[i])];
            allOk := allOk && uploadOk[i];
            i := i + 1;
          }
          assert photos[..i] == photos;
          assert uploadOk[..i] == uploadOk;
        }
        if allOk {
          notice := Redirect(SuccessUrl(claimId));
        }
      }
      notices := notices + [notice];
      isSubmitting := false;
    }
  }

  // ---------------------------------------------------------------------------
  // The photo staging list

  class PhotoUploader {
    var photos: seq<Photo>
    var previews: seq<Preview>
    /** How many object URLs this component has created. */
    var created: nat
    /** The object URLs released, in order. */
    var revoked: seq<Preview>
    /** The wizard that receives every change. */
    const parent: Wizard

    ghost predicate Valid()
      reads this
    {
      Staged(photos, previews, revoked, created)
    }

    constructor(parent: Wizard)
      ensures Valid() && this.parent == parent
      ensures photos == [] && previews == [] && created == 0 && revoked == []
    {
      this.parent := parent;
      photos := [];
      previews := [];
      created := 0;
      revoked := [];
    }

    /** `handleFileChange`: append the picked files, tell the wizard, and create one
        preview per new file. `files` is `None` when the input reports no list. */
    method HandleFileChange(files: Option<seq<Photo>>)
      requires parent.Valid() && parent.uploader == this
      modifies this, parent
      ensures Valid() && parent.Valid()
      ensures files.None? ==> unchanged(this) && unchanged(parent)
      ensures files.Some? ==>
        && photos == old(photos) + files.value
        && previews == old(previews) + NewPreviews(old(created), files.value)
        && created == old(created) + |files.value|
        && revoked == old(revoked)
        && parent.photos == photos
      ensures parent.step == old(parent.step) && parent.isSubmitting == old(parent.isSubmitting)
      ensures parent.draft == old(parent.draft) && parent.uploader == old(parent.uploader)
      ensures parent.requests == old(parent.requests) && parent.notices == old(parent.notices)
    {
      if files.Some? {
        var newFiles := files.value;
        var updatedPhotos := photos + newFiles;
        var newPreviews := [];
        var next := created;
        var i := 0;
        while i < |newFiles|
          invariant 0 <= i <= |newFiles|
          invariant next == created + i
          invariant newPreviews == NewPreviews(created, newFiles[..i])
        {
          assert newFiles[..i + 1][..i] == newFiles[..i];
          newPreviews := newPreviews + [Preview(next, newFiles[i])];
          next := next + 1;
          i := i + 1;
        }
        assert newFiles[..i] == newFiles;
        photos := updatedPhotos;
        previews := previews + newPreviews;
        created := next;
        parent.OnPhotosSelected(updatedPhotos);
      }
    }

    /** `removePhoto`: drop entry `index` from both lists, release its preview and
        tell the wizard. An index outside the list removes nothing and releases
        nothing, but the wizard is still told. */
    method RemovePhoto(index: int)
      requires parent.Valid() && parent.uploader == this
      modifies this, parent
      ensures Valid() && parent.Valid()
      ensures photos == Without(old(photos), index) && previews == Without(old(previews), index)
      ensures revoked == old(revoked) + (if 0 <= index < |old(previews)| then [old(previews)[index]] else [])
      ensures created == old(created)
      ensures parent.photos == photos
      ensures parent.step == old(parent.step) && parent.isSubmitting == old(parent.isSubmitting)
      ensures parent.draft == old(parent.draft) && parent.uploader == old(parent.uploader)
      ensures parent.requests == old(parent.requests) && parent.notices == old(parent.notices)
    {
      var updatedPhotos := Without(photos, index);
      var updatedPreviews := Without(previews, index);
      WithoutIndex(photos, index);
      WithoutIndex(previews, index);
      if 0 <= index < |previews| {
        RemovalKeepsValid(photos, previews, revoked, created, index);
        revoked := revoked + [previews[index]];
      }
      photos := updatedPhotos;
      previews := updatedPreviews;
      parent.OnPhotosSelected(updatedPhotos);
    }
  }

  /** The invariant of the staging list: the two lists stay aligned, every preview
      names its own file, and a URL is handed out once and released at most once,
      only after it left the list. */
  ghost predicate Staged(photos: seq<Photo>, previews: seq<Preview>, revoked: seq<Preview>, created: nat)
  {
    && |photos| == |previews|
    && (forall i | 0 <= i < |previews| :: previews[i].file == photos[i] && previews[i].url < created)
    && (forall i, j | 0 <= i < j < |previews| :: previews[i].url != previews[j].url)
    && (forall k | 0 <= k < |revoked| :: revoked[k].url < created)
    && (forall k, l | 0 <= k < l < |revoked| :: revoked[k].url != revoked[l].url)
    && (forall i, k | 0 <= i < |previews| && 0 <= k < |revoked| :: previews[i].url != revoked[k].url)
  }

  lemma RemovalKeepsValid(photos: seq<Photo>, previews: seq<Preview>, revoked: seq<Preview>, created: nat, index: int)
    requires Staged(photos, previews, revoked, created) && 0 <= index < |previews|
    ensures Staged(photos[..index] + photos[index + 1..], previews[..index] + previews[index + 1..],
                   revoked + [previews[index]], created)
  {
  }

  /** Back from the photo step and Next again: the component comes back empty, yet
      the wizard still holds the photo picked before and uploads it on submit. */
  method HiddenPhotoStillUploaded(w: Wizard, p: Photo, id: ClaimId)
    requires w.Valid() && w.step == TotalSteps && !w.isSubmitting
    requires w.uploader.photos == []
    modifies w, w.uploader
    ensures w.step == TotalSteps && fresh(w.uploader) && w.uploader.photos == []
    ensures w.photos == [p]
    ensures w.requests == old(w.requests) + [CreateClaim(w.draft), UploadPhoto(PhotosPath(id), "file", p)]
    ensures w.notices == old(w.notices) + [Redirect(SuccessUrl(id))]
  {
    w.uploader.HandleFileChange(Some([p]));
    w.PrevStep();
    w.NextStep();
    w.Submit(Some(id), [true]);
  }
}
