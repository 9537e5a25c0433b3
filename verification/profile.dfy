/** The badge shown on a user's profile, chosen from their points. */
module Profile {
  datatype Badge = BronzeReporter | SilverWatchdog | GoldGuardian | CityHero

  function Label(b: Badge): string
  {
    match b
    case CityHero => "\U{1F31F} City Hero"
    case GoldGuardian => "\U{1F947} Gold Guardian"
    case SilverWatchdog => "\U{1F948} Silver Watchdog"
    case BronzeReporter => "\U{1F949} Bronze Reporter"
  }

  /** Position of a badge in the tier order, lowest first. */
  function Tier(b: Badge): nat
  {
    match b
    case BronzeReporter => 0
    case SilverWatchdog => 1
    case GoldGuardian => 2
    case CityHero => 3
  }

  /** `getBadge`: the first threshold the points reach, checked from the top. */
  function GetBadge(points: int): (b: Badge)
    ensures b == CityHero <==> points >= 500
    ensures b == GoldGuardian <==> 201 <= points < 500
    ensures b == SilverWatchdog <==> 51 <= points < 201
    ensures b == BronzeReporter <==> points < 51
  {
    if points >= 500 then CityHero
    else if points >= 201 then GoldGuardian
    else if points >= 51 then SilverWatchdog
    else BronzeReporter
  }

  /** More points never give a lower badge. */
  lemma BadgeIsMonotone(p: int, q: int)
    requires p <= q
    ensures Tier(GetBadge(p)) <= Tier(GetBadge(q))
  {
  }
}
