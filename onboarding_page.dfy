/** The onboarding page: the form-state record seeded from the signed-in
    user, the one-field edits, the avatar generator, and the guarded
    submission of the whole record. */
module OnboardingPage {
  import opened Common
  import Decimal

  /** The signed-in user's profile as fetched; any field may be absent. */
  datatype Profile = Profile(fullName: Option<string>, bio: Option<string>,
                             location: Option<string>, profilePic: Option<string>,
                             currentBook: Option<string>, currentShow: Option<string>,
                             interests: Option<string>)

  /** The form state: seven strings. */
  datatype FormState = FormState(fullName: string, bio: string, location: string,
                                 profilePic: string, currentBook: string,
                                 currentShow: string, interests: string)

  /** The names of the seven fields. */
  datatype Field = FullName | Bio | Location | ProfilePic | CurrentBook | CurrentShow | Interests

  function Get(f: FormState, k: Field): string
  {
    match k
    case FullName => f.fullName
    case Bio => f.bio
    case Location => f.location
    case ProfilePic => f.profilePic
    case CurrentBook => f.currentBook
    case CurrentShow => f.currentShow
    case Interests => f.interests
  }

  function ProfileValue(p: Profile, k: Field): Option<string>
  {
    match k
    case FullName => p.fullName
    case Bio => p.bio
    case Location => p.location
    case ProfilePic => p.profilePic
    case CurrentBook => p.currentBook
    case CurrentShow => p.currentShow
    case Interests => p.interests
  }

  /** The initial form state: each field takes the user's value when there is
      a user and that value is truthy, and the empty string otherwise. */
  function Seed(authUser: Option<Profile>): (f: FormState)
    ensures forall k :: Get(f, k) == if authUser.Some? then OrEmpty(ProfileValue(authUser.value, k)) else ""
  {
    match authUser
    case None => FormState("", "", "", "", "", "", "")
    case Some(u) =>
      FormState(OrEmpty(u.fullName), OrEmpty(u.bio), OrEmpty(u.location), OrEmpty(u.profilePic),
                OrEmpty(u.currentBook), OrEmpty(u.currentShow), OrEmpty(u.interests))
  }

  /** With no signed-in user every field starts empty. */
  lemma SeedWithoutUser()
    ensures forall k :: Get(Seed(None), k) == ""
  {
  }

  /** The profile whose every field holds the form's value. */
  function AsProfile(f: FormState): (p: Profile)
    ensures forall k :: ProfileValue(p, k) == Some(Get(f, k))
  {
    Profile(Some(f.fullName), Some(f.bio), Some(f.location), Some(f.profilePic),
            Some(f.currentBook), Some(f.currentShow), Some(f.interests))
  }

  /** Seeding from a profile that holds a form's values gives that form back. */
  lemma SeedAsProfile(f: FormState)
    ensures Seed(Some(AsProfile(f))) == f
  {
  }

  /** A spread update `{ ...formState, k: v }`: field k becomes v and the other
      six keep their values. */
  function Update(f: FormState, k: Field, v: string): (r: FormState)
    ensures Get(r, k) == v
    ensures forall j :: j != k ==> Get(r, j) == Get(f, j)
  {
    match k
    case FullName => f.(fullName := v)
    case Bio => f.(bio := v)
    case Location => f.(location := v)
    case ProfilePic => f.(profilePic := v)
    case CurrentBook => f.(currentBook := v)
    case CurrentShow => f.(currentShow := v)
    case Interests => f.(interests := v)
  }

  /** Writing back a field's own value changes nothing. */
  lemma UpdateSameValue(f: FormState, k: Field)
    ensures Update(f, k, Get(f, k)) == f
  {
  }

  /** The last of two edits of one field wins. */
  lemma UpdateOverwrites(f: FormState, k: Field, v: string, w: string)
    ensures Update(Update(f, k, v), k, w) == Update(f, k, w)
  {
  }

  /** Edits of two different fields do not interfere. */
  lemma UpdatesCommute(f: FormState, j: Field, v: string, k: Field, w: string)
    requires j != k
    ensures Update(Update(f, j, v), k, w) == Update(Update(f, k, w), j, v)
  {
  }

  /** The option lists of the three selects. Their contents come from the
      application's configuration and are parameters here. */
  datatype Catalogs = Catalogs(books: seq<string>, shows: seq<string>, hobbies: seq<string>)

  /** The catalog a field is chosen from, or None for a free-text field. */
  function CatalogOf(c: Catalogs, k: Field): (r: Option<seq<string>>)
    ensures r.Some? <==> k == CurrentBook || k == CurrentShow || k == Interests
    ensures r.Some? ==> r.value == (if k == CurrentBook then c.books
                                    else if k == CurrentShow then c.shows
                                    else c.hobbies)
  {
    match k
    case CurrentBook => Some(c.books)
    case CurrentShow => Some(c.shows)
    case Interests => Some(c.hobbies)
    case _ => None
  }

  /** The values of a select's options: the placeholder option with value "",
      then one option per catalog entry. */
  function OptionValues(catalog: seq<string>): (vs: seq<string>)
    ensures |vs| == |catalog| + 1
    ensures forall v :: v in vs <==> v == "" || v in catalog
  {
    [""] + catalog
  }

  /** Every catalog field holds "" or an entry of its catalog. */
  predicate CatalogFieldsValid(f: FormState, c: Catalogs)
  {
    forall k :: CatalogOf(c, k).Some? ==> Get(f, k) == "" || Get(f, k) in CatalogOf(c, k).value
  }

  /** A change of a select: its field takes the value of the chosen option. */
  function ChooseOption(f: FormState, c: Catalogs, k: Field, choice: nat): (r: FormState)
    requires CatalogOf(c, k).Some? && choice < |OptionValues(CatalogOf(c, k).value)|
    ensures Get(r, k) == "" || Get(r, k) in CatalogOf(c, k).value
    ensures choice == 0 ==> Get(r, k) == ""
    ensures choice > 0 ==> Get(r, k) == CatalogOf(c, k).value[choice - 1]
    ensures forall j :: j != k ==> Get(r, j) == Get(f, j)
  {
    Update(f, k, OptionValues(CatalogOf(c, k).value)[choice])
  }

  /** Choosing an option keeps every catalog field within its catalog. */
  lemma ChooseOptionKeepsCatalogs(f: FormState, c: Catalogs, k: Field, choice: nat)
    requires CatalogFieldsValid(f, c)
    requires CatalogOf(c, k).Some? && choice < |OptionValues(CatalogOf(c, k).value)|
    ensures CatalogFieldsValid(ChooseOption(f, c, k, choice), c)
  {
  }

  /** Typing into a free-text field keeps every catalog field within its catalog. */
  lemma TextEditKeepsCatalogs(f: FormState, c: Catalogs, k: Field, v: string)
    requires CatalogFieldsValid(f, c)
    requires CatalogOf(c, k).None?
    ensures CatalogFieldsValid(Update(f, k, v), c)
  {
  }

  const AvatarPrefix: string := "https://avatar.iran.liara.run/public/"
  const AvatarSuffix: string := ".png"
  /** The number of placeholder avatars the generator picks from. */
  const AvatarCount: nat := 100

  /** The address of placeholder avatar number idx. */
  function AvatarUrl(idx: nat): (url: string)
    ensures |url| > |AvatarPrefix| + |AvatarSuffix|
    ensures url[..|AvatarPrefix|] == AvatarPrefix
    ensures url[|url| - |AvatarSuffix|..] == AvatarSuffix
    ensures url[|AvatarPrefix|..|url| - |AvatarSuffix|] == Decimal.ToString(idx)
  {
    AvatarPrefix + Decimal.ToString(idx) + AvatarSuffix
  }

  /** The avatar number an address names: it must be the avatar prefix, a
      non-empty run of digits, and the ".png" suffix. */
  function AvatarIndexOf(url: string): (r: Option<nat>)
    ensures r.Some? <==>
              |url| > |AvatarPrefix| + |AvatarSuffix| &&
              url[..|AvatarPrefix|] == AvatarPrefix &&
              url[|url| - |AvatarSuffix|..] == AvatarSuffix &&
              Decimal.AllDigits(url[|AvatarPrefix|..|url| - |AvatarSuffix|])
  {
    var p, s := |AvatarPrefix|, |AvatarSuffix|;
    if |url| >= p + s && url[..p] == AvatarPrefix && url[|url| - s..] == AvatarSuffix
    then Decimal.Parse(url[p..|url| - s])
    else None
  }

  /** Reading an avatar address back gives the number it was built from. */
  lemma AvatarUrlRoundTrip(idx: nat)
    ensures AvatarIndexOf(AvatarUrl(idx)) == Some(idx)
  {
    var digits := Decimal.ToString(idx);
    var url := AvatarUrl(idx);
    var p, s := |AvatarPrefix|, |AvatarSuffix|;
    assert url[..p] == AvatarPrefix;
    assert url[|url| - s..] == AvatarSuffix;
    assert url[p..|url| - s] == digits;
    Decimal.ParseToString(idx);
  }

  /** Distinct avatar numbers give distinct addresses. */
  lemma AvatarUrlInjective(i: nat, j: nat)
    requires AvatarUrl(i) == AvatarUrl(j)
    ensures i == j
  {
    AvatarUrlRoundTrip(i);
    AvatarUrlRoundTrip(j);
  }

  /** The "Generate Avatar" handler, given the random draw `floor(random * 100)`
      as an integer in [0, 100): the picture becomes the address of avatar
      draw + 1, a number in 1..100, and no other field changes. */
  function RandomAvatar(f: FormState, draw: nat): (r: FormState)
    requires draw < AvatarCount
    ensures AvatarIndexOf(r.profilePic).Some?
    ensures 1 <= AvatarIndexOf(r.profilePic).value <= AvatarCount
    ensures r.profilePic == AvatarUrl(AvatarIndexOf(r.profilePic).value)
    ensures AvatarIndexOf(r.profilePic) == Some(draw + 1)
    ensures forall k :: k != ProfilePic ==> Get(r, k) == Get(f, k)
  {
    var idx := draw + 1;
    AvatarUrlRoundTrip(idx);
    Update(f, ProfilePic, AvatarUrl(idx))
  }

  /** A generated avatar keeps every catalog field within its catalog. */
  lemma RandomAvatarKeepsCatalogs(f: FormState, c: Catalogs, draw: nat)
    requires CatalogFieldsValid(f, c)
    requires draw < AvatarCount
    ensures CatalogFieldsValid(RandomAvatar(f, draw), c)
  {
  }

  /** The two captions of the submit button. */
  datatype SubmitCaption = CompleteOnboarding | Onboarding

  datatype SubmitButton = SubmitButton(disabled: bool, caption: SubmitCaption)

  /** The submit button is disabled, and reads "Onboarding...", exactly while
      a submission is pending. */
  function SubmitButtonFor(isPending: bool): (b: SubmitButton)
    ensures b.disabled <==> isPending
    ensures b.caption == Onboarding <==> isPending
  {
    if isPending then SubmitButton(true, Onboarding) else SubmitButton(false, CompleteOnboarding)
  }

  /** Submitting through the button: while a submission is pending nothing is
      sent; otherwise the payload is exactly the current form state. */
  function Submit(f: FormState, isPending: bool): (payload: Option<FormState>)
    ensures payload.Some? <==> !SubmitButtonFor(isPending).disabled
    ensures payload.Some? ==> payload.value == f
  {
    if SubmitButtonFor(isPending).disabled then None else Some(f)
  }

  /** How the onboarding request ends. */
  datatype Outcome = Succeeded | Failed(message: string)

  /** The cache keys invalidated when the request settles: only `authUser`,
      and only on success. */
  function SettledInvalidations(outcome: Outcome): (keys: set<QueryKey>)
    ensures keys <= {AuthUser}
    ensures AuthUser in keys <==> outcome.Succeeded?
  {
    if outcome.Succeeded? then {AuthUser} else {}
  }
}
