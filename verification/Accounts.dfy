/** The accounts the ledger and the balance cache know. */
module Accounts {
  datatype AccountType = User | Model
  datatype BalanceState = Available | Escrow | Earned
}
