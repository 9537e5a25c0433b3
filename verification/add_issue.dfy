/** The add-issue page: the images picked so far, at most three, and the post guard. */
module AddIssue {
  import opened Wrappers
  import opened Seqs

  const MaxImages: nat := 3

  const TooManyImages := "You can only upload up to 3 images."
  const NoImage := "Please capture or upload at least 1 image."
  const Posted := "Issue posted successfully \U{1F680}"

  /** The page's `images` state; `Image` stands for a browser File object. */
  class AddIssuePage<Image> {
    var images: seq<Image>

    ghost predicate Valid()
      reads this
    {
      |images| <= MaxImages
    }

    constructor()
      ensures Valid() && images == []
    {
      images := [];
    }

    /**
     * `handleImageChange`: a batch that would take the total past three is
     * refused with an alert and changes nothing; any other batch is appended
     * after the images already picked, in order.
     */
    method HandleImageChange(files: seq<Image>) returns (alert: Option<string>)
      requires Valid()
      modifies this
      ensures Valid()
      ensures |old(images)| + |files| > MaxImages ==> alert == Some(TooManyImages) && images == old(images)
      ensures |old(images)| + |files| <= MaxImages ==> alert == None && images == old(images) + files
    {
      if |images| + |files| > MaxImages {
        return Some(TooManyImages);
      }
      images := Take(images + files, MaxImages);
      alert := None;
    }

    /** `handlePost`: refuses without an image, and otherwise reports success. */
    method HandlePost() returns (alert: string)
      requires Valid()
      ensures alert == NoImage <==> |images| == 0
      ensures alert == Posted <==> 1 <= |images| <= MaxImages
    {
      if |images| < 1 {
        return NoImage;
      }
      return Posted;
    }
  }
}
