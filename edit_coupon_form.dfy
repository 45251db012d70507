/** The `EditCouponForm` component: the form fields it fills from a coupon (the expiry as
    a UTC calendar day, the tags as one comma-separated string) and the update it reports
    on submit, with the tag string parsed back into a list. */
module EditCouponForm {

  import opened Coupons
  import opened Seqs
  import opened JsString

  /** The initial `formData`. The date field holds the UTC day `toISOString` names,
      counted in days since the epoch. */
  datatype FormData = FormData(
    source: string,
    title: string,
    description: string,
    category: Category,
    expiresDay: int,
    url: string,
    tags: string)

  /** `Partial<Omit<Coupon, 'id' | 'acquiredAt'>>` as `handleSubmit` fills it: every field
      but the two it may not carry. */
  datatype Updates = Updates(
    source: string,
    title: string,
    description: string,
    category: Category,
    expiresAt: int,
    url: string,
    tags: seq<string>)

  /** The two callbacks `handleSubmit` calls, in order. */
  datatype Effect = UpdateCoupon(id: string, updates: Updates) | Close

  /** The separator `coupon.tags.join(', ')` puts between tags. */
  const TagSeparator: string := [',', ' ']

  /** The form filled from a coupon. */
  function InitialForm(c: Coupon): (f: FormData)
    ensures f.expiresDay * MsPerDay <= c.expiresAt < (f.expiresDay + 1) * MsPerDay
  {
    FormData(c.source, c.title, c.description, c.category, c.expiresAt / MsPerDay, c.url,
             Join(c.tags, TagSeparator))
  }

  /** Tags the form can show and read back unchanged. */
  predicate WellFormedTag(t: string)
  {
    t != [] && IsTrimmed(t) && ',' !in t
  }

  /** `tags.split(',').map(tag => tag.trim()).filter(tag => tag)`: every tag it returns
      is non-empty, trimmed and free of commas. */
  function ParseTags(s: string): (r: seq<string>)
    ensures |r| <= |Split(s, ',')|
    ensures forall t :: t in r ==> WellFormedTag(t)
  {
    var pieces := Split(s, ',');
    var trimmed := TrimAll(pieces);
    FilterSpec(NonEmpty, trimmed);
    forall t | t in trimmed ensures ',' !in t {
      var k :| 0 <= k < |pieces| && t == Trim(pieces[k]);
      TrimWithin(pieces[k], ',');
    }
    Filter(NonEmpty, trimmed)
  }

  predicate NonEmpty(t: string)
  {
    t != []
  }

  /** Every piece trimmed. */
  function TrimAll(pieces: seq<string>): (r: seq<string>)
    ensures |r| == |pieces|
    ensures forall k :: 0 <= k < |r| ==> r[k] == Trim(pieces[k])
  {
    seq(|pieces|, k requires 0 <= k < |pieces| => Trim(pieces[k]))
  }

  /** Trimming keeps only characters the string had. */
  lemma TrimWithin(s: string, ch: char)
    requires ch !in s
    ensures ch !in Trim(s)
  {
    var t := Trim(s);
    forall k | 0 <= k < |t| ensures t[k] != ch {
      assert t[k] == s[Leading(s) + k];
    }
  }

  /** `handleSubmit`: the form as an update, sent for the coupon's own id, then the form closes. */
  function Submit(c: Coupon, f: FormData): (effects: seq<Effect>)
    ensures |effects| == 2 && effects[1] == Close
    ensures effects[0].UpdateCoupon? && effects[0].id == c.id
    ensures var u := effects[0].updates;
      && u.source == f.source && u.title == f.title && u.description == f.description
      && u.category == f.category && u.url == f.url
      && u.expiresAt % MsPerDay == 0 && u.expiresAt / MsPerDay == f.expiresDay
      && u.tags == ParseTags(f.tags)
  {
    [UpdateCoupon(c.id, Updates(f.source, f.title, f.description, f.category,
                                f.expiresDay * MsPerDay, f.url, ParseTags(f.tags))),
     Close]
  }

  /** The pieces `split(',')` finds in the joined tags: the first tag, then each later
      tag behind the space of the separator. */
  function Spaced(tags: seq<string>): (r: seq<string>)
    requires |tags| >= 1
    ensures |r| == |tags| && r[0] == tags[0]
    ensures forall k :: 1 <= k < |tags| ==> r[k] == [' '] + tags[k]
  {
    [tags[0]] + seq(|tags| - 1, k requires 0 <= k < |tags| - 1 => [' '] + tags[k + 1])
  }

  /** Joining with `", "` is joining the spaced pieces with `","`. */
  lemma {:induction false} JoinSpaced(tags: seq<string>)
    requires |tags| >= 1
    ensures Join(tags, TagSeparator) == Join(Spaced(tags), [','])
    decreases |tags|
  {
    if |tags| >= 2 {
      var rest := tags[1..];
      JoinSpaced(rest);
      var sp := Spaced(tags);
      assert sp[1..] == [[' '] + rest[0]] + Spaced(rest)[1..];
      JoinPrependFirst(' ', rest[0], Spaced(rest)[1..], [',']);
      assert [rest[0]] + Spaced(rest)[1..] == Spaced(rest);
    }
  }

  /** A character put in front of the first part ends up in front of the joined string. */
  lemma JoinPrependFirst(x: char, p: string, rest: seq<string>, delim: string)
    ensures Join([[x] + p] + rest, delim) == [x] + Join([p] + rest, delim)
  {
    assert ([[x] + p] + rest)[1..] == rest;
    assert ([p] + rest)[1..] == rest;
  }

  /** Round trip: well-formed tags joined with `", "` parse back to the same list. */
  lemma ParseJoinedTags(tags: seq<string>)
    requires forall t :: t in tags ==> WellFormedTag(t)
    ensures ParseTags(Join(tags, TagSeparator)) == tags
  {
    if tags == [] {
      assert Split([], ',') == [[]];
      assert TrimAll([[]]) == [[]];
    } else {
      SplitJoinedTags(tags);
      TrimSpaced(tags);
      FilterAll(NonEmpty, tags);
    }
  }

  /** The joined tags split on `','` into the spaced pieces. */
  lemma SplitJoinedTags(tags: seq<string>)
    requires |tags| >= 1
    requires forall t :: t in tags ==> ',' !in t
    ensures Split(Join(tags, TagSeparator), ',') == Spaced(tags)
  {
    var sp := Spaced(tags);
    JoinSpaced(tags);
    forall k | 0 <= k < |sp| ensures ',' !in sp[k] {
      assert tags[k] in tags;
    }
    SplitJoin(sp, ',');
  }

  /** Trimming the spaced pieces of well-formed tags gives back the tags. */
  lemma TrimSpaced(tags: seq<string>)
    requires |tags| >= 1
    requires forall t :: t in tags ==> t != [] && IsTrimmed(t)
    ensures TrimAll(Spaced(tags)) == tags
  {
    var sp := Spaced(tags);
    forall k | 0 <= k < |sp| ensures Trim(sp[k]) == tags[k] {
      assert tags[k] in tags;
      if k == 0 {
        TrimTrimmed(tags[0]);
      } else {
        TrimAfterWhitespace([' '], tags[k]);
      }
    }
  }

  /** Saving parsed tags and opening the form again shows the same tags. */
  lemma ParseTagsStable(s: string)
    ensures ParseTags(Join(ParseTags(s), TagSeparator)) == ParseTags(s)
  {
    ParseJoinedTags(ParseTags(s));
  }

  /** Submitting the form untouched keeps every text field and well-formed tags, and moves
      the expiry back to midnight UTC of its day. */
  lemma SubmitUnedited(c: Coupon)
    requires forall t :: t in c.tags ==> WellFormedTag(t)
    ensures var u := Submit(c, InitialForm(c))[0].updates;
      && u == Updates(c.source, c.title, c.description, c.category, u.expiresAt, c.url, c.tags)
      && u.expiresAt <= c.expiresAt < u.expiresAt + MsPerDay
      && u.expiresAt % MsPerDay == 0
  {
    ParseJoinedTags(c.tags);
  }
}
