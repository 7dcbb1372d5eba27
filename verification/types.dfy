/** The records the ledger service stores. Money is an amount in minor currency
    units; the source's int64 is modelled as an unbounded integer. */
module Types {

  type Money = int
  type Phone = string
  type PaymentCategory = string

  /** The three predefined payment statuses. */
  datatype PaymentStatus = Ok | Fail | InProgress

  datatype Payment = Payment(
    id: string,
    accountId: int,
    amount: Money,
    category: PaymentCategory,
    status: PaymentStatus)

  /** A named template holding a copy of a payment's account, amount and category. */
  datatype Favorite = Favorite(
    id: string,
    accountId: int,
    name: string,
    amount: Money,
    category: PaymentCategory)

  datatype Account = Account(id: int, phone: Phone, balance: Money)
}
