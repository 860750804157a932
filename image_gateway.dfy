/**
 * The image host as the note controller sees it: an upload either yields
 * `{url, publicId}` or fails, and a destroy call may fail. The host keeps
 * no state the model needs; a note operation's dealings with it are the
 * sequence of calls it makes and the answers to its uploads.
 */
module ImageGateway {

  /** What a successful `uploadImage` resolves to. */
  datatype ImageData = ImageData(url: string, publicId: string)

  /** The answer to one upload: the stored image, or the error the upload is rejected with. */
  datatype UploadResult = Uploaded(data: ImageData) | UploadFailed(message: string)

  /** A call made to the host: uploading the request's file number `file`, or destroying an image. */
  datatype GatewayCall = Upload(file: nat) | Destroy(publicId: string)

  /** The images obtained from a run of uploads: the successful ones, in the order of the files. */
  function Successes(rs: seq<UploadResult>): (r: seq<ImageData>)
    ensures |r| <= |rs|
  {
    if rs == [] then []
    else (if rs[0].Uploaded? then [rs[0].data] else []) + Successes(rs[1..])
  }

  lemma {:induction false} SuccessesAppend(a: seq<UploadResult>, b: seq<UploadResult>)
    ensures Successes(a + b) == Successes(a) + Successes(b)
  {
    if a == [] {
      assert a + b == b;
    } else {
      var head := if a[0].Uploaded? then [a[0].data] else [];
      assert (a + b)[0] == a[0];
      assert (a + b)[1..] == a[1..] + b;
      SuccessesAppend(a[1..], b);
      calc {
        Successes(a + b);
        head + Successes(a[1..] + b);
        head + (Successes(a[1..]) + Successes(b));
        (head + Successes(a[1..])) + Successes(b);
      }
    }
  }

  /** One more answer adds its image at the end if it is a success, and nothing otherwise. */
  lemma SuccessesSnoc(rs: seq<UploadResult>, i: nat)
    requires i < |rs|
    ensures Successes(rs[..i + 1]) ==
      Successes(rs[..i]) + (if rs[i].Uploaded? then [rs[i].data] else [])
  {
    assert rs[..i + 1] == rs[..i] + [rs[i]];
    SuccessesAppend(rs[..i], [rs[i]]);
  }

  /** The number of successful uploads among the first `i` files. */
  function SuccessesBefore(rs: seq<UploadResult>, i: nat): nat
    requires i <= |rs|
  {
    |Successes(rs[..i])|
  }

  /** The image of file `i`, if its upload succeeded, sits right after the images of the earlier files. */
  lemma SuccessPosition(rs: seq<UploadResult>, i: nat)
    requires i < |rs| && rs[i].Uploaded?
    ensures SuccessesBefore(rs, i) < |Successes(rs)|
    ensures Successes(rs)[SuccessesBefore(rs, i)] == rs[i].data
  {
    assert rs == rs[..i] + rs[i..];
    SuccessesAppend(rs[..i], rs[i..]);
    assert rs[i..][0] == rs[i];
  }

  /** A later file's image never precedes an earlier file's image. */
  lemma SuccessesOrdered(rs: seq<UploadResult>, i: nat, j: nat)
    requires i < j <= |rs| && rs[i].Uploaded?
    ensures SuccessesBefore(rs, i) < SuccessesBefore(rs, j)
  {
    assert rs[..j] == rs[..i] + rs[i..j];
    SuccessesAppend(rs[..i], rs[i..j]);
    assert rs[i..j][0] == rs[i];
  }

  /** When every upload fails the note gets no images; when none fails it gets all of them. */
  lemma {:induction false} SuccessesExtremes(rs: seq<UploadResult>)
    ensures (forall i :: 0 <= i < |rs| ==> rs[i].UploadFailed?) ==> Successes(rs) == []
    ensures (forall i :: 0 <= i < |rs| ==> rs[i].Uploaded?) ==>
      |Successes(rs)| == |rs| && forall i :: 0 <= i < |rs| ==> Successes(rs)[i] == rs[i].data
  {
    if rs != [] {
      SuccessesExtremes(rs[1..]);
    }
  }
}
