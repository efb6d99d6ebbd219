/** What the seed script of lab 0202 puts into the table both scripts work on. */
module SeedData {

  const ROWS := 1000

  const BALANCE := 1000000
}
