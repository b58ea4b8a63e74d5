/** The string helpers of `components/dashboard/SIdebar.tsx`: the avatar
    initial, the display name and the shortened email shown for the signed-in
    user, and which menu entry is highlighted. */
module Sidebar {
  import opened Wrappers
  import opened Text

  /** `!user?.email`: no user, no email, or the empty string. */
  predicate NoEmail(email: Option<string>) {
    email.None? || email.value == ""
  }

  /** `getUserInitials`: the first character upper-cased, or "U". */
  function Initials(email: Option<string>): (r: string)
    ensures |r| == 1
    ensures NoEmail(email) ==> r == "U"
    ensures !NoEmail(email) ==> r[0] == ToUpperAscii(email.value[0])
  {
    if NoEmail(email) then "U" else [ToUpperAscii(email.value[0])]
  }

  /** `email.split("@")[0]`: everything before the first "@". */
  function LocalPart(email: string): (r: string)
    ensures |r| <= |email| && r == email[..|r|]
    ensures '@' !in r
    ensures |r| < |email| <==> '@' in email
    ensures |r| < |email| ==> email[|r|] == '@'
  {
    var k := IndexOf(email, '@');
    assert forall c :: c in email[..k] ==> c != '@';
    email[..k]
  }

  /** Splitting an address built from an "@"-free local part and a domain
      gives the local part back. */
  lemma LocalPartOfAddress(local: string, domain: string)
    requires '@' !in local
    ensures LocalPart(local + "@" + domain) == local
  {
    var email := local + "@" + domain;
    assert email[|local|] == '@';
    assert email[..|local|] == local;
  }

  /** `getDisplayName`: the local part of the email, or "User". */
  function DisplayName(email: Option<string>): (r: string)
    ensures NoEmail(email) ==> r == "User"
    ensures !NoEmail(email) ==> r == LocalPart(email.value)
  {
    if NoEmail(email) then "User" else LocalPart(email.value)
  }

  /** The longest email shown whole. */
  const MaxShown: nat := 20

  /** `getTruncatedEmail`: long emails cut to twenty characters and "...",
      a placeholder when there is none. */
  function TruncatedEmail(email: Option<string>): (r: string)
    ensures NoEmail(email) ==> r == "user@example.com"
    ensures !NoEmail(email) && |email.value| > MaxShown ==>
      |r| == MaxShown + 3 && r[..MaxShown] == email.value[..MaxShown] && r[MaxShown..] == "..."
    ensures !NoEmail(email) && |email.value| <= MaxShown ==> r == email.value
    ensures |r| <= MaxShown + 3
  {
    if NoEmail(email) then "user@example.com"
    else if |email.value| > MaxShown then email.value[..MaxShown] + "..."
    else email.value
  }

  /** The navigation entries' targets. */
  const MenuHrefs: seq<string> := [
    "/dashboard", "/dashboard/tours", "/dashboard/analytics", "/dashboard/embed", "/dashboard/settings"]

  /** `pathname === item.href`. */
  predicate IsActive(pathname: string, href: string) {
    pathname == href
  }

  /** At most one entry is highlighted. */
  lemma AtMostOneActive(pathname: string, i: int, j: int)
    requires 0 <= i < j < |MenuHrefs|
    ensures !(IsActive(pathname, MenuHrefs[i]) && IsActive(pathname, MenuHrefs[j]))
  {
    assert MenuHrefs[i] != MenuHrefs[j] by {
      if |MenuHrefs[i]| == |MenuHrefs[j]| {
        assert i == 1 && j == 3;
        assert MenuHrefs[i][11] != MenuHrefs[j][11];
      }
    }
  }

  /** The match is exact: a page below an entry, such as one tour's page
      under "/dashboard/tours", highlights no entry. */
  lemma TourPageInactive(id: string)
    requires id != []
    ensures forall i :: 0 <= i < |MenuHrefs| ==> !IsActive("/dashboard/tours/" + id, MenuHrefs[i])
  {
    var p := "/dashboard/tours/" + id;
    forall i | 0 <= i < |MenuHrefs|
      ensures p != MenuHrefs[i]
    {
      assert p[11] == 't' && |p| >= 18;
      if |p| == |MenuHrefs[i]| {
        assert MenuHrefs[i][11] != 't';
      }
    }
  }
}
