/**
 * The fallback chains the profile menu uses to show the signed-in user:
 * initials, a display name and an avatar address.
 */
module UserProfile {
  import opened Wrappers
  import opened Strings
  import opened WebEncoding

  /** The stored profile row; every column may be null. */
  datatype Profile = Profile(firstName: Option<string>, lastName: Option<string>, avatarUrl: Option<string>)

  /** The signed-in user: an e-mail address and the avatar the identity provider reported, either possibly absent. */
  datatype User = User(email: Option<string>, providerAvatarUrl: Option<string>)

  /** What the avatar helper produces: an address, no address, or the exception `btoa` throws. */
  datatype Avatar = Link(url: string) | NoAvatar | Fails

  const DefaultInitial := "U"
  const DefaultName := "Usuario"
  const GravatarPrefix := "https://www.gravatar.com/avatar/"
  const GravatarQuery := "?d=identicon&s=40"

  /** `profile?.first_name`. */
  function FirstName(profile: Option<Profile>): Option<string> {
    if profile.Some? then profile.value.firstName else None
  }

  /** `profile?.last_name`. */
  function LastName(profile: Option<Profile>): Option<string> {
    if profile.Some? then profile.value.lastName else None
  }

  /** `profile?.avatar_url`. */
  function ProfileAvatar(profile: Option<Profile>): Option<string> {
    if profile.Some? then profile.value.avatarUrl else None
  }

  /** No lower-case ASCII letter. */
  predicate Upper(s: string) {
    forall k :: 0 <= k < |s| ==> !('a' <= s[k] <= 'z')
  }

  lemma UpperOfToUpper(s: string)
    ensures Upper(ToUpper(s))
  {
  }

  /**
   * `getInitials`: the first letters of both names; else the first two
   * letters of the first name; else of the part of the e-mail before '@';
   * else "U". The result is upper-cased and at most two characters long.
   */
  function Initials(user: User, profile: Option<Profile>): (r: string)
    ensures |r| <= 2 && Upper(r)
    ensures Truthy(FirstName(profile)) && Truthy(LastName(profile)) ==>
      r == [UpperChar(FirstName(profile).value[0]), UpperChar(LastName(profile).value[0])]
    ensures Truthy(FirstName(profile)) && !Truthy(LastName(profile)) ==>
      r == ToUpper(Take(FirstName(profile).value, 2))
    ensures !Truthy(FirstName(profile)) && Truthy(user.email) ==> r == ToUpper(Take(Before(user.email.value, '@'), 2))
    ensures !Truthy(FirstName(profile)) && !Truthy(user.email) ==> r == DefaultInitial
  {
    var first, last := FirstName(profile), LastName(profile);
    if Truthy(first) && Truthy(last) then
      UpperOfToUpper([first.value[0], last.value[0]]);
      ToUpper([first.value[0], last.value[0]])
    else if Truthy(first) then
      UpperOfToUpper(Take(first.value, 2));
      ToUpper(Take(first.value, 2))
    else if Truthy(user.email) then
      UpperOfToUpper(Take(Before(user.email.value, '@'), 2));
      ToUpper(Take(Before(user.email.value, '@'), 2))
    else DefaultInitial
  }

  /** The initials are empty exactly when they come from an e-mail address that starts with '@'. */
  lemma InitialsEmptyIff(user: User, profile: Option<Profile>)
    ensures Initials(user, profile) == "" <==>
      !Truthy(FirstName(profile)) && Truthy(user.email) && user.email.value[0] == '@'
  {
    if !Truthy(FirstName(profile)) && Truthy(user.email) {
      var e := user.email.value;
      if e[0] != '@' {
        assert |Before(e, '@')| >= 1 by {
          assert Before(e, '@') == [e[0]] + Before(e[1..], '@');
        }
      }
    }
  }

  /**
   * `getDisplayName`: both names separated by a space; else the first name;
   * else the e-mail address; else "Usuario". It is never empty.
   */
  function DisplayName(user: User, profile: Option<Profile>): (r: string)
    ensures r != ""
    ensures Truthy(FirstName(profile)) && Truthy(LastName(profile)) ==>
      r == FirstName(profile).value + " " + LastName(profile).value
    ensures Truthy(FirstName(profile)) && !Truthy(LastName(profile)) ==> r == FirstName(profile).value
    ensures !Truthy(FirstName(profile)) && Truthy(user.email) ==> r == user.email.value
    ensures !Truthy(FirstName(profile)) && !Truthy(user.email) ==> r == DefaultName
  {
    var first, last := FirstName(profile), LastName(profile);
    if Truthy(first) && Truthy(last) then first.value + " " + last.value
    else if Truthy(first) then first.value
    else if Truthy(user.email) then user.email.value
    else DefaultName
  }

  /** The address that stands in for a user's own avatar: the base64 of the trimmed, lower-cased e-mail. */
  function Gravatar(email: string): (r: Avatar)
    ensures r == Fails <==> !IsLatin1(Trim(ToLower(email)))
    ensures r != NoAvatar
  {
    var h := Btoa(Trim(ToLower(email)));
    if h.None? then Fails else Link(GravatarPrefix + h.value + GravatarQuery)
  }

  /** `getAvatarUrl`: the provider's avatar; else the profile's; else the stand-in derived from the e-mail; else none. */
  function AvatarUrl(user: User, profile: Option<Profile>): (r: Avatar)
    ensures Truthy(user.providerAvatarUrl) ==> r == Link(user.providerAvatarUrl.value)
    ensures !Truthy(user.providerAvatarUrl) && Truthy(ProfileAvatar(profile)) ==> r == Link(ProfileAvatar(profile).value)
    ensures r == NoAvatar <==> !Truthy(user.providerAvatarUrl) && !Truthy(ProfileAvatar(profile)) && !Truthy(user.email)
  {
    if Truthy(user.providerAvatarUrl) then Link(user.providerAvatarUrl.value)
    else if Truthy(ProfileAvatar(profile)) then Link(ProfileAvatar(profile).value)
    else if Truthy(user.email) then Gravatar(user.email.value)
    else NoAvatar
  }

  /** The middle of `a + m + b` is what lies between `a` and `b`. */
  lemma Between(a: string, m: string, b: string)
    ensures var t := a + m + b;
      StartsWith(t, a) && EndsWith(t, b) && t[|a|..|t| - |b|] == m
  {
    var t := a + m + b;
    assert t[..|a|] == a;
    assert t[|t| - |b|..] == b;
    assert t[|a|..|t| - |b|] == m;
  }

  /** The identifier in the stand-in address decodes back to the trimmed lower-cased e-mail. */
  lemma GravatarDecodes(email: string)
    requires Gravatar(email).Link?
    ensures var url := Gravatar(email).url;
      StartsWith(url, GravatarPrefix) && EndsWith(url, GravatarQuery) &&
      var bs := Base64Decode(url[|GravatarPrefix|..|url| - |GravatarQuery|]);
      var key := Trim(ToLower(email));
      |bs| == |key| && forall k :: 0 <= k < |key| ==> bs[k] == key[k] as int
  {
    var key := Trim(ToLower(email));
    var h := Btoa(key).value;
    Between(GravatarPrefix, h, GravatarQuery);
    BtoaDecodes(key);
  }

  /**
   * Without an avatar of their own, a user with an e-mail address gets the
   * stand-in address derived from it, or the helper throws.
   */
  lemma GravatarFallback(user: User, profile: Option<Profile>)
    requires !Truthy(user.providerAvatarUrl) && !Truthy(ProfileAvatar(profile)) && Truthy(user.email)
    ensures AvatarUrl(user, profile) == Gravatar(user.email.value)
    ensures AvatarUrl(user, profile) != NoAvatar
  {
  }
}
