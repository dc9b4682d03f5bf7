/** Two valid creates on an empty store get orders 1 and 2, and the listing
    shows the newer product first. */
module Scenarios {
  import opened Products
  import opened JoiRules
  import opened ProductsRouter

  /** Two products stored in order of creation are listed newest first. */
  lemma ListingOfTwo(older: Product, newer: Product)
    requires older.order < newer.order
    ensures ListProducts([older, newer]).body.data.views == [ViewOf(newer), ViewOf(older)]
  {
    assert [older, newer][1..] == [newer];
    assert SortByOrderDesc([newer]) == [newer];
    assert Insert(older, [newer]) == [newer, older];
    assert SortByOrderDesc([older, newer]) == [newer, older];
    var views := ViewsOf([newer, older]);
    assert views == [ViewOf(newer), ViewOf(older)];
  }

  /** The products two valid creates on an empty store produce. */
  lemma TwoCreates(first: Payload, second: Payload, firstId: string, secondId: string,
                   t1: Time, t2: Time, t3: Time, t4: Time)
    requires ValidateCreate(first).Ok? && ValidateCreate(second).Ok?
    requires firstId != secondId
    ensures CreateOutcome([], first, firstId, t1, t2).Ok?
    ensures var older := CreateOutcome([], first, firstId, t1, t2).value;
      && older.order == 1
      && CreateOutcome([older], second, secondId, t3, t4).Ok?
      && CreateOutcome([older], second, secondId, t3, t4).value.order == 2
  {
    var older := CreateOutcome([], first, firstId, t1, t2).value;
    assert NextOrder([older]) == [older][0].order + 1;
  }
}
