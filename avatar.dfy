/** The avatar upload component: the storage key it derives and the
    `uploading` / `imageUrl` / `error` state its file handler drives. The object store's
    upload is an input outcome; its public-URL lookup is a parameter. */
module Avatar {
  import opened JsValues
  import opened Text

  datatype SelectedFile = SelectedFile(name: string, contentType: string)

  const KeyInfix := "-profile."
  const UploadFailedMessage := "Wystąpił błąd podczas przesyłania obrazu"

  /** `name.split(".").pop()`: the text after the last dot, or the whole name. */
  function Extension(name: string): (ext: string)
    ensures '.' !in ext
    ensures '.' !in name ==> ext == name
    ensures '.' in name ==> |ext| < |name| && name[|name| - |ext| - 1] == '.' && name[|name| - |ext|..] == ext
  {
    AfterLast(name, '.')
  }

  /** `${userId}-profile.${fileExt}` */
  function StorageKey(userId: string, fileName: string): (key: string)
    ensures |userId| < |key| && key[..|userId|] == userId
    ensures Extension(key) == Extension(fileName)
  {
    var key := userId + KeyInfix + Extension(fileName);
    assert key[..|userId|] == userId;
    ExtensionOfKey(userId, Extension(fileName));
    key
  }

  /** The extension of `prefix + "." + ext` is `ext` when `ext` has no dot. */
  lemma ExtensionAfterDot(prefix: string, ext: string)
    requires '.' !in ext
    ensures Extension(prefix + "." + ext) == ext
  {
    var name := prefix + "." + ext;
    var dot := |prefix|;
    assert name[dot] == '.';
    assert forall m :: dot < m < |name| ==> name[m] == ext[m - dot - 1];
    assert LastIndexOf(name, '.') == dot;
    assert name[dot + 1..] == ext;
  }

  /** The extension of a key is the extension it was built from. */
  lemma ExtensionOfKey(userId: string, ext: string)
    requires '.' !in ext
    ensures Extension(userId + KeyInfix + ext) == ext
  {
    var prefix := userId + "-profile";
    assert KeyInfix == "-profile" + ".";
    assert userId + KeyInfix + ext == prefix + "." + ext;
    ExtensionAfterDot(prefix, ext);
  }

  lemma Example()
    ensures StorageKey("u1", "photo.png") == "u1-profile.png"
  {
    var ext := Extension("photo.png");
    assert ext == "png" by {
      assert "photo.png" == "photo" + "." + "png";
      ExtensionAfterDot("photo", "png");
    }
    assert StorageKey("u1", "photo.png") == "u1" + KeyInfix + ext;
    assert "u1" + KeyInfix + "png" == "u1-profile.png";
  }

  /** Different users, or different extensions, never share a key; the same user with the
      same extension always targets the same key. */
  lemma StorageKeyInjective(u1: string, n1: string, u2: string, n2: string)
    ensures StorageKey(u1, n1) == StorageKey(u2, n2) <==> u1 == u2 && Extension(n1) == Extension(n2)
  {
    var k1, k2 := StorageKey(u1, n1), StorageKey(u2, n2);
    if k1 == k2 {
      var e1, e2 := Extension(n1), Extension(n2);
      assert e1 == e2;
      assert |u1| == |u2| by {
        assert |k1| == |u1| + |KeyInfix| + |e1| && |k2| == |u2| + |KeyInfix| + |e2|;
      }
      assert u1 == k1[..|u1|];
    }
  }

  class AvatarUpload {
    const userId: string
    var uploading: bool
    var imageUrl: string
    var error: string

    /** `useState(false)`, `useState(initialImageUrl || "")`, `useState("")` */
    constructor (userId: string, initialImageUrl: Option<string>)
      ensures this.userId == userId
      ensures !uploading && error == "" && imageUrl == initialImageUrl.GetOr("")
    {
      this.userId := userId;
      uploading := false;
      imageUrl := OrElse(initialImageUrl, "");
      error := "";
    }

    /** `handleFileChange`: uploads the first selected file under its storage key.
        `uploadSucceeds` is the store's answer; `publicUrl` its URL for a key.
        Returns the key the upload targets (whether or not it succeeds) and the URL handed
        to `onImageUpload`, if any. */
    method HandleFileChange(files: seq<SelectedFile>, uploadSucceeds: bool, publicUrl: string -> string)
      returns (targetKey: Option<string>, reported: Option<string>)
      modifies this
      ensures files == [] ==> targetKey == None && reported == None
                              && uploading == old(uploading) && imageUrl == old(imageUrl) && error == old(error)
      ensures files != [] ==> targetKey == Some(StorageKey(userId, files[0].name)) && !uploading
      ensures files != [] && uploadSucceeds ==>
                error == "" && imageUrl == publicUrl(targetKey.value) && reported == Some(imageUrl)
      ensures files != [] && !uploadSucceeds ==>
                error == UploadFailedMessage && imageUrl == old(imageUrl) && reported == None
    {
      targetKey, reported := None, None;
      if |files| == 0 {
        return;
      }
      var filePath := StorageKey(userId, files[0].name);
      uploading := true;
      error := "";
      targetKey := Some(filePath);
      if uploadSucceeds {
        var url := publicUrl(filePath);
        imageUrl := url;
        reported := Some(url);
      } else {
        error := UploadFailedMessage;
      }
      uploading := false;
    }
  }
}
