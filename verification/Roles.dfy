/** Credit roles: the table that maps free text onto the roles ERN 3.8.2 allows. */
module Roles {
  import opened TextBasics

  function Lower(c: char): char { if 'A' <= c <= 'Z' then c - 'A' + 'a' else c }

  function LowerAll(s: string): (r: string)
    ensures |r| == |s|
  {
    if s == [] then [] else LowerAll(s[..|s| - 1]) + [Lower(s[|s| - 1])]
  }

  function ContributorRole(role: string): string {
    var r := LowerAll(Trim(role));
    if r in ["producer", "music producer", "executive producer", "co-producer"] then "Producer"
    else if r in ["featured artist", "featuring", "feat.", "feat"] then "FeaturedArtist"
    else if r == "conductor" then "Conductor"
    else if r == "narrator" then "Narrator"
    else if r in ["artist", "main artist"] then "Artist"
    else if r in ["musician", "instrumentalist", "performer", "associated performer"]
    then "AssociatedPerformer"
    else if r in ["engineer", "recording engineer", "sound engineer", "audio engineer",
                  "mastering engineer", "mixer", "mix engineer", "mixing engineer"]
    then "StudioPersonnel"
    else "Contributor"
  }

  /** Artist and featured-artist credits never change through a correction. */
  predicate LockedRole(role: string) {
    ContributorRole(role) == "Artist" || ContributorRole(role) == "FeaturedArtist"
  }

  /** `ResourceContributorRole` values the table may give. */
  predicate Allowed(role: string) {
    role in {"Producer", "FeaturedArtist", "Conductor", "Narrator", "Artist", "AssociatedPerformer",
             "StudioPersonnel", "Contributor"}
  }

  /** Whatever is typed as a role, ERN 3.8.2 knows the one written; exactly the spellings of an artist
      and of a featured artist are locked, in any case and between any blanks. */
  lemma {:induction false} RolesAreKnown(role: string)
    ensures Allowed(ContributorRole(role))
    ensures LockedRole(role) <==> LowerAll(Trim(role)) in {"artist", "main artist", "featured artist", "featuring",
                                                           "feat.", "feat"}
    ensures ContributorRole(role) == "Producer"
       <==> LowerAll(Trim(role)) in {"producer", "music producer", "executive producer", "co-producer"}
    ensures ContributorRole(role) == "AssociatedPerformer"
       <==> LowerAll(Trim(role)) in {"musician", "instrumentalist", "performer", "associated performer"}
  {
    hide LowerAll, Trim;
  }
}
