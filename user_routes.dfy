/** The profile handlers under `/api/users`: the field whitelist applied to
    a profile update and the upload filter of the profile-picture route. */
module UserRoutes {

  /** The update keys a user may set on their own profile. */
  const AllowedUpdates: seq<string> := [
    "firstName", "lastName", "profile.bio", "profile.skills",
    "profile.experience", "profile.education", "profile.location",
    "profile.phone", "profile.website", "profile.linkedin",
    "profile.github", "company.name", "company.website",
    "company.description", "company.industry", "company.size",
    "company.location", "preferences"
  ]

  /** 5 MB: the largest profile picture accepted. */
  const MaxUploadBytes := 5 * 1024 * 1024

  /** The whitelisted part of a request body: its allowed keys, with their
      values. */
  function Whitelisted<V>(updates: map<string, V>): map<string, V> {
    map k | k in updates && k in AllowedUpdates :: updates[k]
  }

  /** The `forEach` over the body's keys that copies each allowed key into
      `filteredUpdates`. The key order of the body does not matter, so the
      loop takes the remaining keys in any order. */
  method FilterUpdates<V>(updates: map<string, V>) returns (filtered: map<string, V>)
    ensures filtered == Whitelisted(updates)
  {
    filtered := map[];
    var remaining := updates.Keys;
    while remaining != {}
      invariant remaining <= updates.Keys
      invariant forall k :: k in filtered <==> k in updates && k !in remaining && k in AllowedUpdates
      invariant forall k :: k in filtered ==> filtered[k] == updates[k]
      decreases remaining
    {
      var key :| key in remaining;
      if key in AllowedUpdates {
        filtered := filtered[key := updates[key]];
      }
      remaining := remaining - {key};
    }
  }

  /** Every kept key is allowed; every allowed key of the body is kept with
      its value unchanged. */
  lemma WhitelistExact<V>(updates: map<string, V>)
    ensures forall k :: k in Whitelisted(updates) ==> k in AllowedUpdates && k in updates
    ensures forall k :: k in updates && k in AllowedUpdates ==>
              k in Whitelisted(updates) && Whitelisted(updates)[k] == updates[k]
  {
  }

  /** Keys that change credentials, role or account state never get
      through, and the match is on the exact key: a whole `profile` object
      is dropped, `preferences` kept. */
  lemma SensitiveKeysDropped<V>(updates: map<string, V>)
    ensures "password" !in Whitelisted(updates) && "email" !in Whitelisted(updates)
    ensures "userType" !in Whitelisted(updates) && "isActive" !in Whitelisted(updates)
    ensures "profile" !in Whitelisted(updates)
    ensures "preferences" in updates ==> "preferences" in Whitelisted(updates)
  {
    NotAllowedByShape("password");
    NotAllowedByShape("email");
    NotAllowedByShape("userType");
    NotAllowedByShape("isActive");
    NotAllowedByShape("profile");
    assert AllowedUpdates[17] == "preferences";
  }

  /** The shortest allowed key is `lastName`, with eight characters: no
      shorter key, and no other eight-character key, is allowed. */
  lemma NotAllowedByShape(k: string)
    requires |k| < 8 || (|k| == 8 && k[0] != 'l')
    ensures k !in AllowedUpdates
  {
    forall i | 0 <= i < |AllowedUpdates|
      ensures AllowedUpdates[i] != k
    {
      if |AllowedUpdates[i]| == |k| {
        assert AllowedUpdates[i] == "lastName";
        assert AllowedUpdates[i][0] == 'l';
      }
    }
  }

  /** Filtering what was already filtered changes nothing. */
  lemma WhitelistIdempotent<V>(updates: map<string, V>)
    ensures Whitelisted(Whitelisted(updates)) == Whitelisted(updates)
  {
  }

  /** The JavaScript `startsWith`. */
  predicate StartsWith(s: string, prefix: string) {
    |prefix| <= |s| && s[..|prefix|] == prefix
  }

  /** The multer `fileFilter`: only images. */
  predicate AcceptsUpload(mimetype: string) {
    StartsWith(mimetype, "image/")
  }

  /** What the upload middleware decides about one file. */
  datatype UploadDecision = Accepted | RejectedType | TooLarge

  /** The size limit is checked as the file streams in, after the filter;
      a file over the limit is refused even when its type is allowed. */
  function CheckUpload(mimetype: string, size: nat): (d: UploadDecision)
    ensures d == Accepted <==> AcceptsUpload(mimetype) && size <= MaxUploadBytes
    ensures d == RejectedType <==> !AcceptsUpload(mimetype)
  {
    if !AcceptsUpload(mimetype) then RejectedType
    else if size > MaxUploadBytes then TooLarge
    else Accepted
  }

  /** The filter accepts exactly the MIME types of the image family. */
  lemma UploadFilterExact(mimetype: string)
    ensures AcceptsUpload(mimetype) <==> exists rest :: mimetype == "image/" + rest
  {
    if AcceptsUpload(mimetype) {
      assert mimetype == "image/" + mimetype[6..];
    }
    if exists rest :: mimetype == "image/" + rest {
      var rest :| mimetype == "image/" + rest;
      assert mimetype[..6] == "image/";
    }
  }

  lemma UploadExamples()
    ensures AcceptsUpload("image/png") && AcceptsUpload("image/jpeg")
    ensures !AcceptsUpload("application/pdf") && !AcceptsUpload("image") && !AcceptsUpload("text/image/png")
    ensures MaxUploadBytes == 5242880
  {
    assert "image/png"[..6] == "image/";
    assert "image/jpeg"[..6] == "image/";
    assert "application/pdf"[..6] != "image/" by {
      assert "application/pdf"[0] == 'a';
    }
    assert "text/image/png"[..6] != "image/" by {
      assert "text/image/png"[0] == 't';
    }
  }
}
