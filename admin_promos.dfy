/** AdminPromos.jsx: the admin's promo list and form. The list shows a status
    label computed from the activity flag and the date window; the form holds
    optional numbers that may be empty, and its submit handler turns an empty
    (falsy) cap or usage limit into null. Its date inputs hold local wall-clock
    text, while `startEdit` fills them with UTC text. Instants are the same
    integer milliseconds as the server's; the clock reading `new Date()` is the
    parameter `now`, and the browser's offset from UTC is a parameter too. */
module AdminPromos {
  import opened Seqs
  import opened Models
  import opened Text
  import PromosService

  const NONAKTIF: string := "Nonaktif"
  const TERJADWAL: string := "Terjadwal"
  const EXPIRED: string := "Expired"
  const AKTIF: string := "Aktif"

  // ---------------------------------------------------------------------------
  // Status label
  // ---------------------------------------------------------------------------

  /** `getPromoStatus(promo).label`: inactive first, then not yet started,
      then ended, otherwise running. */
  function StatusLabel(promo: Promo, now: int): (status: string)
    ensures !promo.isActive ==> status == NONAKTIF
    ensures promo.isActive && now < promo.startDate ==> status == TERJADWAL
    ensures promo.isActive && promo.startDate <= now && now > promo.endDate ==> status == EXPIRED
    ensures status == AKTIF <==> promo.isActive && promo.startDate <= now <= promo.endDate
  {
    if !promo.isActive then NONAKTIF
    else if now < promo.startDate then TERJADWAL
    else if now > promo.endDate then EXPIRED
    else AKTIF
  }

  /** 'Aktif' is the server's activity and date checks and nothing more: every
      promo the server accepts is labelled 'Aktif', and usage and the minimum
      purchase never change the label. */
  lemma AktifMatchesServer(promo: Promo, now: int, orderTotal: real, usedCount: int, usageLimit: Option<int>, minPurchase: real)
    ensures StatusLabel(promo, now) == AKTIF <==> promo.isActive && PromosService.WithinDates(promo, now)
    ensures PromosService.IsPromoValid(promo, orderTotal, now) ==> StatusLabel(promo, now) == AKTIF
    ensures StatusLabel(promo.(usedCount := usedCount, usageLimit := usageLimit, minPurchase := minPurchase), now)
         == StatusLabel(promo, now)
  {
  }

  /** An 'Aktif' promo can still be refused: its uses may be exhausted. */
  lemma AktifButExhausted(promo: Promo, now: int, orderTotal: real)
    requires promo.isActive && promo.startDate <= now <= promo.endDate
    requires promo.usageLimit == Some(promo.usedCount)
    ensures StatusLabel(promo, now) == AKTIF && !PromosService.IsPromoValid(promo, orderTotal, now)
  {
  }

  // ---------------------------------------------------------------------------
  // The form
  // ---------------------------------------------------------------------------

  /** An optional number in the form state: empty (`null` or `''`), a number
      put there by `startEdit`, or text typed into the input, held as the
      value `parseFloat`/`parseInt` reads from it. Only a number 0 and an empty
      field are falsy in JavaScript; typed text never is, even "0". */
  datatype Field<N> = Empty | Stored(n: N) | Typed(n: N)

  /** `currentPromo.maxDiscount ? parseFloat(currentPromo.maxDiscount) : null`. */
  function SentMaxDiscount(f: Field<real>): (r: Option<real>)
    ensures r.None? <==> f.Empty? || f == Stored(0.0)
    ensures r.Some? ==> r.value == f.n
  {
    match f
    case Empty => None
    case Stored(x) => if x != 0.0 then Some(x) else None
    case Typed(x) => Some(x)
  }

  /** `currentPromo.usageLimit ? parseInt(currentPromo.usageLimit) : null`. */
  function SentUsageLimit(f: Field<int>): (r: Option<int>)
    ensures r.None? <==> f.Empty? || f == Stored(0)
    ensures r.Some? ==> r.value == f.n
  {
    match f
    case Empty => None
    case Stored(x) => if x != 0 then Some(x) else None
    case Typed(x) => Some(x)
  }

  /** `promo.maxDiscount || ''` and `promo.usageLimit || ''` in `startEdit`. */
  function EditedMaxDiscount(stored: Option<real>): (f: Field<real>)
    ensures f.Empty? <==> stored.None? || stored == Some(0.0)
    ensures f.Stored? ==> stored == Some(f.n)
  {
    if stored.Some? && stored.value != 0.0 then Stored(stored.value) else Empty
  }

  function EditedUsageLimit(stored: Option<int>): (f: Field<int>)
    ensures f.Empty? <==> stored.None? || stored == Some(0)
    ensures f.Stored? ==> stored == Some(f.n)
  {
    if stored.Some? && stored.value != 0 then Stored(stored.value) else Empty
  }

  // ---------------------------------------------------------------------------
  // The form's dates
  // ---------------------------------------------------------------------------

  /** Instants in the browser are JavaScript `Date` values: milliseconds
      since 1970-01-01T00:00Z. */
  const MS_PER_MINUTE: nat := 60000

  /** The text of a `datetime-local` input, "YYYY-MM-DDTHH:mm", held as the
      minute it names, counted from 1970-01-01T00:00 of the same wall clock. */
  type MinuteText = int

  /** `new Date(d).toISOString().slice(0, 16)`: the UTC date and time of `d`,
      cut to the minute. */
  function UtcMinuteText(d: int): (m: MinuteText)
    ensures m * MS_PER_MINUTE <= d < m * MS_PER_MINUTE + MS_PER_MINUTE
  {
    d / MS_PER_MINUTE
  }

  /** `new Date(text).toISOString()`: a date-time text without an offset is
      read as local time, so the instant lies the browser's offset
      (`offsetMinutes`, east of UTC) before the same text read as UTC. */
  function LocalInstant(m: MinuteText, offsetMinutes: int): (d: int)
    ensures d % MS_PER_MINUTE == 0
    ensures UtcMinuteText(d) + offsetMinutes == m
  {
    (m - offsetMinutes) * MS_PER_MINUTE
  }

  /** The minute of `d` on the browser's own clock: the text a
      `datetime-local` input shows for `d`. */
  function LocalMinuteText(d: int, offsetMinutes: int): (m: MinuteText)
    ensures LocalInstant(m, offsetMinutes) <= d < LocalInstant(m, offsetMinutes) + MS_PER_MINUTE
  {
    d / MS_PER_MINUTE + offsetMinutes
  }

  // ---------------------------------------------------------------------------
  // Submitting and editing
  // ---------------------------------------------------------------------------

  /** The form's state `currentPromo`. */
  datatype PromoForm = PromoForm(
    code: string,
    name: string,
    description: Option<string>,
    discountType: string,
    discountValue: real,
    minPurchase: real,
    maxDiscount: Field<real>,
    startDate: MinuteText,
    endDate: MinuteText,
    usageLimit: Field<int>,
    isActive: bool)

  /** `promoData`, the body `handleSubmit` posts or puts. */
  datatype PromoData = PromoData(
    code: string,
    name: string,
    description: Option<string>,
    discountType: string,
    discountValue: real,
    minPurchase: real,
    maxDiscount: Option<real>,
    usageLimit: Option<int>,
    startDate: int,
    endDate: int,
    isActive: bool)

  /** `handleSubmit`'s body, in a browser `offsetMinutes` east of UTC. */
  function PromoDataOf(form: PromoForm, offsetMinutes: int): (d: PromoData)
    ensures d.maxDiscount.None? <==> form.maxDiscount.Empty? || form.maxDiscount == Stored(0.0)
    ensures d.usageLimit.None? <==> form.usageLimit.Empty? || form.usageLimit == Stored(0)
    ensures (d.code, d.name, d.description, d.discountType, d.discountValue, d.minPurchase)
         == (form.code, form.name, form.description, form.discountType, form.discountValue, form.minPurchase)
    ensures d.isActive == form.isActive
    ensures d.startDate % MS_PER_MINUTE == 0 && UtcMinuteText(d.startDate) == form.startDate - offsetMinutes
    ensures d.endDate % MS_PER_MINUTE == 0 && UtcMinuteText(d.endDate) == form.endDate - offsetMinutes
  {
    PromoData(form.code, form.name, form.description, form.discountType, form.discountValue, form.minPurchase,
              SentMaxDiscount(form.maxDiscount), SentUsageLimit(form.usageLimit),
              LocalInstant(form.startDate, offsetMinutes), LocalInstant(form.endDate, offsetMinutes), form.isActive)
  }

  /** `startEdit`: the stored promo copied into the form, the dates as their
      UTC minute, and empty fields for a missing or zero cap and usage limit. */
  function StartEdit(p: Promo): (form: PromoForm)
    ensures (form.code, form.name, form.description, form.discountType, form.discountValue, form.minPurchase, form.isActive)
         == (p.code, p.name, p.description, p.discountType, p.discountValue, p.minPurchase, p.isActive)
    ensures form.maxDiscount.Empty? <==> p.maxDiscount.None? || p.maxDiscount == Some(0.0)
    ensures form.usageLimit.Empty? <==> p.usageLimit.None? || p.usageLimit == Some(0)
    ensures form.maxDiscount.Stored? ==> p.maxDiscount == Some(form.maxDiscount.n)
    ensures form.usageLimit.Stored? ==> p.usageLimit == Some(form.usageLimit.n)
    ensures form.startDate * MS_PER_MINUTE <= p.startDate < form.startDate * MS_PER_MINUTE + MS_PER_MINUTE
    ensures form.endDate * MS_PER_MINUTE <= p.endDate < form.endDate * MS_PER_MINUTE + MS_PER_MINUTE
  {
    PromoForm(p.code, p.name, p.description, p.discountType, p.discountValue, p.minPurchase,
              EditedMaxDiscount(p.maxDiscount), UtcMinuteText(p.startDate), UtcMinuteText(p.endDate),
              EditedUsageLimit(p.usageLimit), p.isActive)
  }

  /** Editing a promo and saving without changes sends back its fields, with
      three changes: a stored cap or usage limit of 0 comes back as null
      (uncapped, and unlimited), and each date is cut to its minute and then
      moved back by the browser's offset from UTC. */
  lemma EditThenSave(p: Promo, offsetMinutes: int)
    ensures PromoDataOf(StartEdit(p), offsetMinutes).maxDiscount == if p.maxDiscount == Some(0.0) then None else p.maxDiscount
    ensures PromoDataOf(StartEdit(p), offsetMinutes).usageLimit == if p.usageLimit == Some(0) then None else p.usageLimit
    ensures PromoDataOf(StartEdit(p), offsetMinutes).startDate == p.startDate - p.startDate % MS_PER_MINUTE - offsetMinutes * MS_PER_MINUTE
    ensures PromoDataOf(StartEdit(p), offsetMinutes).endDate == p.endDate - p.endDate % MS_PER_MINUTE - offsetMinutes * MS_PER_MINUTE
    ensures PromoDataOf(StartEdit(p), offsetMinutes) == PromoData(p.code, p.name, p.description, p.discountType,
      p.discountValue, p.minPurchase, PromoDataOf(StartEdit(p), offsetMinutes).maxDiscount,
      PromoDataOf(StartEdit(p), offsetMinutes).usageLimit, PromoDataOf(StartEdit(p), offsetMinutes).startDate,
      PromoDataOf(StartEdit(p), offsetMinutes).endDate, p.isActive)
  {
    MinuteSplit(p.startDate);
    MinuteSplit(p.endDate);
  }

  lemma MinuteSplit(d: int)
    ensures (d / MS_PER_MINUTE) * MS_PER_MINUTE == d - d % MS_PER_MINUTE
  {
  }

  /** Outside UTC the dates move at every unchanged save: a promo whose dates
      fall on whole minutes comes back with both dates `offsetMinutes` earlier,
      and saved again, earlier still. */
  lemma ResaveShiftsDates(p: Promo, offsetMinutes: int)
    requires p.startDate % MS_PER_MINUTE == 0 && p.endDate % MS_PER_MINUTE == 0
    ensures PromoDataOf(StartEdit(p), offsetMinutes).startDate == p.startDate - offsetMinutes * MS_PER_MINUTE
    ensures PromoDataOf(StartEdit(p), offsetMinutes).endDate == p.endDate - offsetMinutes * MS_PER_MINUTE
    ensures offsetMinutes != 0 ==> PromoDataOf(StartEdit(p), offsetMinutes).startDate != p.startDate
    ensures var d := PromoDataOf(StartEdit(p), offsetMinutes);
            var p' := p.(startDate := d.startDate, endDate := d.endDate);
            PromoDataOf(StartEdit(p'), offsetMinutes).startDate == p.startDate - 2 * offsetMinutes * MS_PER_MINUTE
  {
    EditThenSave(p, offsetMinutes);
    var d := PromoDataOf(StartEdit(p), offsetMinutes);
    var p' := p.(startDate := d.startDate, endDate := d.endDate);
    EditThenSave(p', offsetMinutes);
  }

  /** A promo starting 2025-01-01T00:00:30Z, opened and saved unchanged in a
      browser at UTC+7, is sent back starting 2024-12-31T17:00:00Z. */
  lemma ResaveAtUtcPlusSeven(p: Promo)
    requires p.startDate == 1735689630000
    ensures PromoDataOf(StartEdit(p), 420).startDate == 1735664400000
  {
    EditThenSave(p, 420);
  }

  /** The evidently intended `startEdit`: it shows each date on the browser's
      own clock, as a `datetime-local` input expects, so that reading the text
      back as local time gives the same minute. */
  function StartEditLocal(p: Promo, offsetMinutes: int): (form: PromoForm)
    ensures form.(startDate := 0, endDate := 0) == StartEdit(p).(startDate := 0, endDate := 0)
    ensures LocalInstant(form.startDate, offsetMinutes) <= p.startDate < LocalInstant(form.startDate, offsetMinutes) + MS_PER_MINUTE
    ensures LocalInstant(form.endDate, offsetMinutes) <= p.endDate < LocalInstant(form.endDate, offsetMinutes) + MS_PER_MINUTE
  {
    StartEdit(p).(startDate := LocalMinuteText(p.startDate, offsetMinutes),
                  endDate := LocalMinuteText(p.endDate, offsetMinutes))
  }

  /** With the corrected `startEdit`, an unchanged save only cuts the dates to
      the minute, in every time zone, so a second save changes nothing more. */
  lemma EditLocalThenSave(p: Promo, offsetMinutes: int)
    ensures PromoDataOf(StartEditLocal(p, offsetMinutes), offsetMinutes).startDate == p.startDate - p.startDate % MS_PER_MINUTE
    ensures PromoDataOf(StartEditLocal(p, offsetMinutes), offsetMinutes).endDate == p.endDate - p.endDate % MS_PER_MINUTE
    ensures var d := PromoDataOf(StartEditLocal(p, offsetMinutes), offsetMinutes);
            var p' := p.(startDate := d.startDate, endDate := d.endDate);
            PromoDataOf(StartEditLocal(p', offsetMinutes), offsetMinutes).startDate == d.startDate &&
            PromoDataOf(StartEditLocal(p', offsetMinutes), offsetMinutes).endDate == d.endDate
  {
    MinuteSplit(p.startDate);
    MinuteSplit(p.endDate);
    var d := PromoDataOf(StartEditLocal(p, offsetMinutes), offsetMinutes);
    MinuteSplit(d.startDate);
    MinuteSplit(d.endDate);
  }

  /** A usage limit of 0 refuses every use on the server; edited and saved
      unchanged, the promo no longer has a limit at all. */
  lemma ZeroLimitLostOnResave(p: Promo, orderTotal: real, now: int, offsetMinutes: int)
    requires p.usageLimit == Some(0) && p.usedCount >= 0
    ensures !PromosService.IsPromoValid(p, orderTotal, now)
    ensures PromoDataOf(StartEdit(p), offsetMinutes).usageLimit.None?
  {
  }

  /** The code input's `onChange`: the typed text, upper-cased. */
  function WithCode(form: PromoForm, input: string): (r: PromoForm)
    ensures r.code == ToUpper(input) && r.(code := form.code) == form
    ensures forall i :: 0 <= i < |r.code| ==> !('a' <= r.code[i] <= 'z')
  {
    form.(code := ToUpper(input))
  }

  /** Typing the code already shown upper-case leaves it as it is. */
  lemma WithCodeStable(form: PromoForm, input: string)
    ensures WithCode(WithCode(form, input), WithCode(form, input).code) == WithCode(form, input)
  {
    ToUpperIdempotent(input);
  }
}
